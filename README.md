# Timesheet generator — a verified Dafny model

This project models the core of `Timesheet.py`, a small attendance-sheet generator.
It builds a one-row table for one employee and one month. Each day of the month is
marked as weekend (`"WO"`), holiday (`"H"`), leave (`"L"`) or worked (the number 1).
The table is then written to a spreadsheet with a fixed layout:

- metadata lines in J1..J3;
- a styled header row on row 5 and the data row on row 6;
- thin borders over the table;
- colour-coded day cells;
- two signature blocks three rows below the table.

The model has seven modules:

- `Values` (`values.dfy`): the value a cell holds, in a pandas frame and in a
  worksheet alike: nothing, a string or an integer.
- `Calendar` (`calendar.dfy`): Python's `calendar.monthrange` month lengths and
  `calendar.weekday`, including its normalisation of years outside 1..9999.
- `Text` (`text.dfy`): `str.strip`, `str.split`, `str.isdigit`, `int(...)` and
  `str(n)` over ASCII text.
- `Timesheet` (`timesheet.dfy`): `generate_timesheet` as an imperative method. It
  fills a dictionary (a `map`) day by day, then reads it back in column order, as
  `df.loc[0] = row` does. The result is proved equal to `GeneratedFrame`. The module
  also has the day classification and the `worked_days` count.
- `DayLists` (`day_lists.dfy`): the parsing of the comma-separated leave and holiday
  inputs.
- `Sheet` (`sheet.dfy`): an openpyxl worksheet as a class. It has a cell map, and
  `max_row` / `max_column` kept tight by an invariant. Blocks of cells are updated by
  nested loops, as `iter_rows` does, and each update is proved against a
  specification function, `Restyled`.
- `Excel` (`excel.dfy`): `to_excel_bytes` up to the point where the workbook is
  saved. The method `ToExcel` builds the worksheet. It is proved equal to
  `Rendered`, which applies the same stages as functions (pandas write, metadata,
  header style, borders, highlight, signatures). Lemmas then state the layout the
  sheet has.

The code is followed wherever a plain reading of the layout might suggest otherwise:

- Worked-day cells get a thin border and centred alignment but no fill. Only "WO",
  "H" and "L" cells are filled.
- The header loop and the border loop reach every column up to `max_column`. Column J
  holds the metadata, so a table narrower than ten columns is padded with styled
  empty cells up to J (`Width`, `HeaderRowCells`). A generated timesheet always has
  at least 29 columns, so its table is never padded.
- The signature block starts at row `max_row + 3` = 9, because the metadata cells
  never raise `max_row` above the data row.

## Model

| member | source | states |
|---|---|---|
| Calendar.IsLeap | Timesheet.py:10 | definition of `calendar.isleap`: divisible by 4, and not by 100 unless by 400; its consequences are stated by `YearLength` and `FourHundredYears` |
| Calendar.DaysInMonth | Timesheet.py:10 | the length of a month (`monthrange(year, month)[1]`) is between 28 and 31 |
| Calendar.DaysBeforeMonth | Timesheet.py:11 | the days of a year before a month's first day number at most 31 per month |
| Calendar.DaysBeforeYear | Timesheet.py:11 | definition of the days before 1 January of a year, the closed form inside `date.toordinal()`; its properties are `DaysBeforeNextYear` and `FourHundredYearCycle` |
| Calendar.Ordinal | Timesheet.py:11 | definition of `date.toordinal()`, day 1 being 1 January of year 1; its properties are `OrdinalOfNextDate` and `WeekdayIsContinuous` |
| Calendar.NormalizedYear | Timesheet.py:11 | `calendar.weekday` maps every year into `datetime`'s range 1..9999 |
| Calendar.Weekday | Timesheet.py:11 | `calendar.weekday` returns a weekday index 0..6 for every valid date |
| Calendar.NextDate | Timesheet.py:10-11 | the day after a valid date is a valid date |
| Calendar.YearLength | Timesheet.py:10 | the month lengths of a year add up to 366 days in a leap year and 365 otherwise |
| Calendar.DaysBeforeNextYear | Timesheet.py:11 | consecutive years start as many days apart as the first year is long |
| Calendar.FourHundredYears | Timesheet.py:11 | the leap-year rule repeats after 400 years, which hold 146097 days |
| Calendar.FourHundredYearCycle | Timesheet.py:11 | shifting a year by 400k keeps the leap-year status and shifts the day count by 146097k |
| Calendar.MonthsAgree | Timesheet.py:10-11 | two years with the same leap-year status have the same month offsets |
| Calendar.WeekdayIsContinuous | Timesheet.py:11 | the year normalisation in `calendar.weekday` gives the weekday of the continuous day count, for every integer year |
| Calendar.OrdinalOfNextDate | Timesheet.py:10-11 | the day count goes up by exactly one from a date to the next, across month and year ends |
| Calendar.NextDateWeekday | Timesheet.py:11 | the next date falls on the next weekday, modulo 7, also where the year normalisation starts or stops |
| Calendar.Anchors | Timesheet.py:10-11 | 1 January of year 1 and 1 September 2025 are Mondays; February has 29 days in 2024 and 2000 and 28 days in 2025 and 1900 |
| Text.IsSpace | Timesheet.py:114 | definition of the ASCII whitespace `str.strip()` removes (codes 9..13 and 28..32); used by `TrimStart`, `TrimEnd` and `StripIsInfix` |
| Text.IsDigits | Timesheet.py:114 | definition of ASCII `str.isdigit()`: at least one character, all digits; used by `KeptValues`, `NonDigitDropped` and `BlankDropped` |
| Text.TrimStart | Timesheet.py:114 | the result is a suffix of the input, everything dropped is whitespace, and it does not start with whitespace |
| Text.TrimEnd | Timesheet.py:114 | the result is a prefix of the input, everything dropped is whitespace, and it does not end with whitespace |
| Text.Strip | Timesheet.py:114 | `x.strip()` is no longer than `x`, and neither of its ends is whitespace |
| Text.StripIsInfix | Timesheet.py:114 | `x.strip()` is the infix of `x` that has only whitespace before it and only whitespace after it |
| Text.StripPadded | Timesheet.py:114 | stripping whitespace padding around a text with non-blank ends gives that text back |
| Text.TrimStartPadded | Timesheet.py:114 | removing leading whitespace from padding plus text gives the text |
| Text.TrimEndPadded | Timesheet.py:114 | removing trailing whitespace from text plus padding gives the text |
| Text.Split | Timesheet.py:114 | `s.split(",")` has at least one piece and no piece holds a comma |
| Text.JoinSplit | Timesheet.py:114 | joining the pieces of a split with the separator restores the text |
| Text.JoinConsFirst | Timesheet.py:114 | putting a text in front of the first piece puts it in front of the joined text |
| Text.SplitJoin | Timesheet.py:114 | splitting a join of comma-free pieces gives back exactly those pieces |
| Text.SplitPiece | Timesheet.py:114 | a text without a separator splits into itself alone |
| Text.SplitAfterPiece | Timesheet.py:114 | a leading separator-free piece becomes the first part of the split |
| Text.DigitsValue | Timesheet.py:114 | `int(x)` of a digit string is a natural number |
| Text.DigitChar | Timesheet.py:13 | a decimal digit value renders as a digit character |
| Text.NatToString | Timesheet.py:13 | `str(d)` is a non-empty run of digits without a leading zero |
| Text.DigitsValueOfNatToString | Timesheet.py:13-14 | reading back `str(n)` gives n |
| Text.NatToStringInjective | Timesheet.py:13-14 | different numbers render differently |
| Timesheet.DayAbbrev | Timesheet.py:11 | `day_name[...][:3]` is a three-letter abbreviation |
| Timesheet.DayLabel | Timesheet.py:13 | definition of the column header `f"{d} {w}"`; its properties are `DayLabelStartsWithDigit`, `DayLabelInjective`, `DayLabelParts` and `HeaderLabel` |
| Timesheet.DayMark | Timesheet.py:18-25 | definition of the if/elif chain: weekend first, then holiday, then leave, else 1; its properties are `WeekendWins`, `HolidayBeatsLeave`, `LeaveOnWeekday`, `WorkedExactlyWhenFree` and `EveryDayMarked` |
| Timesheet.DayColumns | Timesheet.py:13 | there is one day header per day of the month |
| Timesheet.Header | Timesheet.py:13-14 | definition of the column list `["Emp Name"] + headers`; its properties are `HeaderColumns`, `HeaderLabel` and `HeaderDistinct` |
| Timesheet.DayCells | Timesheet.py:17-25 | there is one marker per day of the month |
| Timesheet.Lookup | Timesheet.py:26 | definition of `df.loc[0] = row` for one column: the dict entry under the column name, NaN (`Empty`) when there is none; `GenerateTimesheet` proves no day column is missing |
| Timesheet.GeneratedFrame | Timesheet.py:9-27 | the frame for a valid month has N+1 columns and N+1 values; "Emp Name" heads the employee's name, every day column holds a marker, and no value is missing |
| Timesheet.GenerateTimesheet | Timesheet.py:9-27 | an invalid month fails as `IllegalMonthError`; otherwise the loop over the dict, read back in column order, gives exactly `GeneratedFrame`: the columns "Emp Name" and the day labels, over the name and the marker of each day in day order |
| Timesheet.DayLabelStartsWithDigit | Timesheet.py:13-16 | a day label starts with a digit, so it never equals "Emp Name" and never overwrites the name entry |
| Timesheet.DayLabelInjective | Timesheet.py:13-25 | two day labels are equal only for the same day, so no dict entry overwrites another |
| Timesheet.FilledStep | Timesheet.py:17-25 | storing day d's marker under its label keeps the name entry and the markers of days 1..d-1, so after the loop every day's marker is in the dict |
| Timesheet.FilledRowAligned | Timesheet.py:13-26 | once every day's marker is in the dict, `df.loc[0] = row` aligns it with the columns into the name followed by the markers of days 1..N, with no NaN left |
| Timesheet.HeaderLabel | Timesheet.py:13 | the label of column d is `str(d)` followed by a space and the day's three-letter abbreviation |
| Timesheet.DayLabelParts | Timesheet.py:13 | a label `f"{d} {w}"` with a three-letter `w` splits back into `str(d)` and the space plus `w` |
| Timesheet.HeaderDistinct | Timesheet.py:13-14 | no two header columns are equal, so no dict entry overwrites another |
| Timesheet.HeaderColumns | Timesheet.py:13-14 | the header has N+1 columns, "Emp Name" first; column d reads back as day d followed by its weekday; all columns differ |
| Timesheet.WeekendAbbrev | Timesheet.py:11-18 | the abbreviation is "Sat" or "Sun" exactly for weekdays 5 and 6 |
| Timesheet.WeekendWins | Timesheet.py:18-19 | a Saturday or Sunday is "WO" whatever the holiday and leave lists hold |
| Timesheet.HolidayBeatsLeave | Timesheet.py:20-21 | a weekday holiday is "H", even when it is also a leave day |
| Timesheet.LeaveOnWeekday | Timesheet.py:22-23 | a weekday leave day that is not a holiday is "L" |
| Timesheet.WorkedExactlyWhenFree | Timesheet.py:17-25 | a day holds 1 if and only if it is a weekday in neither list |
| Timesheet.EveryDayMarked | Timesheet.py:17-25 | every day cell holds one of the four markers |
| Timesheet.WithinMonth | Timesheet.py:20-23 | filtering a day list to 1..N keeps only values in that range |
| Timesheet.WithinMonthMembers | Timesheet.py:20-23 | a day of the month is in the filtered list if and only if it is in the list |
| Timesheet.OutOfMonthDaysIgnored | Timesheet.py:20-23 | listed days outside 1..N change no cell |
| Timesheet.Count | Timesheet.py:119 | a count of the cells holding a value never exceeds the number of cells |
| Timesheet.WorkedDays | Timesheet.py:119 | definition of `worked_days`: the number of cells after the name that equal 1; its properties are `CountWorkedPrefix`, `MarkersAddUp` and `WorkedDaysOfTimesheet` |
| Timesheet.CountPartition | Timesheet.py:119 | on cells holding only markers, the counts of the four markers add up to the number of cells |
| Timesheet.MarkersAddUp | Timesheet.py:17-25 | worked, weekend, holiday and leave days add up to the month length, so `worked_days` is at most N |
| Timesheet.CountOnes | Timesheet.py:119 | when the 1s mark exactly the days in a set, the 1s among the first k cells are as many as the days 1..k in the set |
| Timesheet.CountWorkedPrefix | Timesheet.py:119 | the 1s among days 1..k are as many as the worked days among them |
| Timesheet.WorkedDaysOfTimesheet | Timesheet.py:119 | `worked_days` of a generated row is the number of weekdays of the month that are neither holidays nor leave days |
| DayLists.KeepNumbers | Timesheet.py:114-115 | the comprehension keeps at most one value per token, and every value kept is non-negative |
| DayLists.ParseDays | Timesheet.py:114-115 | definition of the comprehension over `text.split(",")`; its properties are `ParsedValues` and `ParseFormatted` |
| DayLists.ParsedValues | Timesheet.py:114-115 | a value is parsed if and only if some comma-separated token strips to a digit run with that value; values are non-negative and at most one per token |
| DayLists.KeptValues | Timesheet.py:114-115 | a value is kept if and only if some token is a digit run with that value once stripped |
| DayLists.FormatTokens | Timesheet.py:111-112 | a typed list such as "2, 15" has one token per day |
| DayLists.ParseFormatted | Timesheet.py:114-115 | parsing "d1, d2, ..." gives back d1, d2, ... in order |
| DayLists.KeepFormatted | Timesheet.py:114-115 | the comprehension keeps every number token of a formatted list, in order |
| DayLists.FormattedToken | Timesheet.py:114 | a number written with or without a leading space strips to a digit run with that value |
| DayLists.NonDigitDropped | Timesheet.py:114-115 | a token holding any character that is neither whitespace nor a digit (a minus sign, a letter) is dropped |
| DayLists.BlankDropped | Timesheet.py:114-115 | a token of only whitespace, the empty token included, is dropped |
| DayLists.PaddedNumberKept | Timesheet.py:114-115 | a written-out number with any whitespace before and after it is read as that number |
| DayLists.PaddedTokenKept | Timesheet.py:114-115 | " 7 " is read as 7: spaces around the digits are stripped first |
| Sheet.Block | Timesheet.py:63 | definition of the positions `iter_rows` visits, those inside the row and column bounds; how many there are is stated by `BlockSize` |
| Sheet.RowSize | Timesheet.py:64 | one row of `iter_rows` visits one cell per column of the range, none when the range is empty |
| Sheet.BlockSize | Timesheet.py:63-64 | `iter_rows` visits (rows in range) × (columns in range) cells, each once |
| Sheet.Restyled | Timesheet.py:63-66 | definition of a block update as one map: `f` applied to every cell of the block, missing ones created blank first, all others kept; its per-cell meaning is `RestyledCell`, and the loops are proved equal to it by `UpdateBlock` and `BlockUpdatedIsRestyled` |
| Sheet.At | Timesheet.py:45-46 | definition of `ws[p]`: the stored cell, or a new blank one; used by `WithValue`, `WithFont` and `Restyled` |
| Sheet.WithValue | Timesheet.py:42-44 | definition of `ws[p] = v` on the cell map; `SetValue` is proved against it |
| Sheet.WithFont | Timesheet.py:45-46 | definition of `ws[p].font = f` on the cell map; `SetFont` is proved against it |
| Sheet.RowUpdated | Timesheet.py:64-66 | definition of one row updated cell by cell, left to right; `UpdateRow` is proved against it and `RowUpdatedIsRestyled` relates it to `Restyled` |
| Sheet.BlockUpdated | Timesheet.py:63-66 | definition of a block updated row by row, top to bottom; `UpdateRows` is proved against it and `BlockUpdatedIsRestyled` relates it to `Restyled` |
| Sheet.RestyledCell | Timesheet.py:63-66 | after a block update, a cell exists if it did before or lies in the block, and it is updated exactly when it lies in the block |
| Sheet.RestyledEmpty | Timesheet.py:63 | an empty block changes nothing |
| Sheet.RestyledNextCell | Timesheet.py:64-66 | visiting the next cell of a row extends the updated block by that cell |
| Sheet.RestyledNextRow | Timesheet.py:63-64 | visiting the next row extends the updated block by that row |
| Sheet.RestyledKeepsBounds | Timesheet.py:63 | updating a block inside `max_row` × `max_column` leaves those bounds as they are |
| Sheet.Worksheet.constructor | Timesheet.py:33 | the empty sheet pandas' writer starts from has no cells and `max_row` = `max_column` = 1; with `WriteFrame` it stands for lines 33-38 |
| Sheet.Worksheet.Put | Timesheet.py:42-44 | storing a cell replaces that position only and grows the bounds to include it |
| Sheet.Worksheet.SetValue | Timesheet.py:42-44 | `ws[p] = v` replaces the value and keeps the style |
| Sheet.Worksheet.SetFont | Timesheet.py:45-46 | `ws[p].font = f` replaces the font only |
| Sheet.Worksheet.UpdateBlock | Timesheet.py:63-66 | the nested loops over a block inside the bounds apply the update to each of its cells and keep the bounds |
| Sheet.Worksheet.UpdateRows | Timesheet.py:63-64 | the outer loop leaves the sheet as `BlockUpdated`: the rows of the block updated in turn, top to bottom |
| Sheet.Worksheet.UpdateRow | Timesheet.py:64-66 | the inner loop leaves the sheet as `RowUpdated`: the cells of one row updated in turn, left to right |
| Sheet.RowUpdatedIsRestyled | Timesheet.py:64-66 | updating the cells of a row one after the other is the same as updating the row as a block |
| Sheet.BlockUpdatedIsRestyled | Timesheet.py:63-66 | updating the rows of a block one after the other is the same as updating the block as a whole |
| Excel.WellFormed | Timesheet.py:30-33 | definition of the frames `to_excel_bytes` is given: at least one column, one value per column, no missing value; `GeneratedFrameFits` shows the generated frame is one |
| Excel.Written | Timesheet.py:33 | definition of the cells `df.to_excel(..., index=False, startrow=4)` writes; its properties are `WrittenAt` and `WrittenBounds`, and `WriteFrame` is proved against it |
| Excel.WrittenBounds | Timesheet.py:33 | after pandas writes the frame, the sheet ends at row 6 and at the frame's last column |
| Excel.WrittenAt | Timesheet.py:33 | pandas writes exactly the header row 5 and the data row 6, over the frame's columns |
| Excel.WrittenNextCell | Timesheet.py:33 | writing the next header or data cell extends what is written by that cell |
| Excel.WriteFrame | Timesheet.py:33 | `df.to_excel(..., index=False, startrow=4)` writes the header at row 5 and the values at row 6, and leaves `max_row` = 6 |
| Excel.WriteHeader | Timesheet.py:33 | the column names go to row 5, left to right, in pandas' header style |
| Excel.WriteData | Timesheet.py:33 | the row values go to row 6, left to right, unstyled |
| Excel.WriteMetadata | Timesheet.py:41-46 | the three metadata lines and their font go to J1..J3, which widens `max_column` to at least 10 and raises `max_row` to at least 3 |
| Excel.WriteColumn | Timesheet.py:82-91 | one signature block writes five values down a column and grows the bounds to take them in |
| Excel.WithMetadata | Timesheet.py:41-46 | definition of the metadata writes to J1..J3; `WriteMetadata` is proved against it and `MetadataBlock` states the result |
| Excel.Width | Timesheet.py:41-63 | definition of `ws.max_column` once J1 is written: the frame's width, widened to 10 |
| Excel.HeaderCell | Timesheet.py:48-54 | definition of the header-row style; `HeaderRowCells` states the result |
| Excel.BorderCell | Timesheet.py:56-66 | definition of the border-loop style; `DataRowCells` and `TableStyles` state the result |
| Excel.Highlight | Timesheet.py:68-78 | definition of the highlight loop's body; `HighlightScheme` relates it to the colour table `MarkFill`/`MarkFont` |
| Excel.MarkFill | Timesheet.py:69-78 | the fill of each marker, as a table; used by `DataRowCells` and `DayColours` |
| Excel.MarkFont | Timesheet.py:69-78 | the font of each marker, as a table; used by `DataRowCells` and `DayColours` |
| Excel.WithColumn | Timesheet.py:82-91 | definition of five values written down a column; `WriteColumn` is proved against it and `WithColumnAt` states its effect per cell |
| Excel.WithSignatures | Timesheet.py:80-91 | definition of both signature blocks; `SignaturesAt` and `SignatureBlock` state the result |
| Excel.Annotated | Timesheet.py:33-46 | definition of the sheet after pandas' write and the metadata; `StagesAt` states it per cell |
| Excel.Headed | Timesheet.py:48-54 | definition of the sheet after the header loop; `StagesAt` states it per cell |
| Excel.Bordered | Timesheet.py:56-66 | definition of the sheet after the border loop; `StagesAt` states it per cell |
| Excel.Highlighted | Timesheet.py:68-78 | definition of the sheet after the highlight loop; `StagesAt` and `HighlightedKeys` state it |
| Excel.Rendered | Timesheet.py:30-91 | definition of the sheet `to_excel_bytes` saves, stage after stage; `ToExcel` is proved equal to it, and `MetadataBlock`, `HeaderRowCells`, `DataRowCells`, `SignatureBlock`, `SheetCells`, `TableStyles` and `RenderedDay` state its layout |
| Excel.ToExcel | Timesheet.py:30-91 | the worksheet built in place equals the staged specification `Rendered`, and its bounds invariant holds |
| Excel.HighlightScheme | Timesheet.py:69-78 | on an unfilled cell in the default font, the highlight sets the fill and font that the colour table gives its value |
| Excel.SignatureLines | Timesheet.py:81-91 | each signature block has five lines |
| Excel.WithColumnAt | Timesheet.py:81-91 | writing five lines down a column changes the values of those five cells and nothing else |
| Excel.SignaturesAt | Timesheet.py:80-91 | the signature stage writes the lines in B9..B13 and H9..H13 and keeps every other cell |
| Excel.StagesAt | Timesheet.py:41-78 | each cell of each stage derives from the previous stage: the metadata touches only J1..J3; the header loop touches row 5; the border loop touches rows 5..6; the highlight loop touches row 6 from column B |
| Excel.MetadataBlock | Timesheet.py:41-46 | J1..J3 hold "PO Number: ...", "Project ID: ..." and "Month: <name> <year>" in the bold 1F4E78 font, with no fill or border |
| Excel.HeaderRowCells | Timesheet.py:48-66 | row 5, columns A..max_column, holds the column names in a solid 1F4E78 fill with a bold white font, thin borders and centred text; pandas' own header style is fully replaced |
| Excel.DataRowCells | Timesheet.py:56-78 | row 6 holds the frame's values, all with thin borders and centred text; column A is unfilled; from column B, "WO" is filled D9D9D9, "H" is filled FFC7CE in bold 9C0006, "L" is filled FFD966 in bold 7F6000, and any other value gets no fill |
| Excel.HighlightedDataCell | Timesheet.py:63-78 | before the signatures, a data cell is its bordered cell, highlighted from column B on |
| Excel.SignatureBlock | Timesheet.py:80-91 | rows 9..13 of columns B and H hold the dashed rule, the role, "Name: <manager>" and the signature and date placeholders |
| Excel.SheetCells | Timesheet.py:30-91 | the saved sheet has cells only at J1..J3, in the table of rows 5..6, and in the two signature columns of rows 9..13, so rows 4, 7 and 8 are empty |
| Excel.HighlightedKeys | Timesheet.py:41-78 | before the signatures, the sheet's cells are J1..J3 and the table |
| Excel.TableStyles | Timesheet.py:48-78 | over the whole sheet, a thin border and centred text appear exactly on the table, and a fill appears only in row 5 or in row 6 from column B |
| Excel.GeneratedFrameFits | Timesheet.py:9-33 | the frame `generate_timesheet` returns is one `to_excel_bytes` accepts, and its table is one column wider than the month is long, so it is never padded to column J |
| Excel.RenderedDay | Timesheet.py:17-25 | in the saved timesheet, the header of column d+1 is day d's label, and its cell is grey on a weekend, red on a weekday holiday, yellow on a weekday leave day, and unfilled on a worked day, with the bold fonts of the colour table |
| Excel.DayColours | Timesheet.py:18-23 | the colour table applied to the marker of a day gives the fill and font of its classification |

## Left out

- The Streamlit user interface (Timesheet.py:100-112, 121, 125-127) is not modelled. This covers the widget defaults, the input ranges, the display line and the download button. The model takes their values as parameters.
- The billable amount (Timesheet.py:120) is left out. It is a floating-point quotient, and the model has no floating point. The worked-day count it divides is modelled (`WorkedDays`).
- `calendar.month_name` (Timesheet.py:124) is left out because it is a locale table. The month name is a parameter of `RenderMeta`.
- Serialisation is left out: the `BytesIO` buffers, the save and reload round trip through the xlsx format (Timesheet.py:31-38), and `wb.save` (Timesheet.py:94-97). The model starts from the sheet pandas writes and ends with the sheet that would be saved. It assumes the reload keeps values and styles as written.
- Excel.ToExcel: openpyxl's checks on the strings it stores are not modelled. A string holding an ASCII control character other than tab, line feed or carriage return makes openpyxl raise `IllegalCharacterError`. A string over 32,767 characters is cut short. A string starting with "=" is stored as a formula. `to_excel_bytes` stores user text unchanged: the employee name in A6 through `df.to_excel` (Timesheet.py:33), the PO number and project id in J1 and J2 (Timesheet.py:41-42), and the manager names in B11 and H11 (Timesheet.py:84, 89). The model assumes these texts are free of such characters, shorter than that limit and not formulas. On other inputs the source fails or stores something else, while `ToExcel` always returns the sheet as written. The openpyxl cell code is not part of this model.
- Style objects are kept only as far as the code sets them. openpyxl's own representation is left out: colour normalisation to ARGB, named styles and style ids.
- Text handling is ASCII only. Unicode `str.isdigit`, Unicode whitespace in `str.strip`, and locale-dependent weekday names are left out. Weekday names are the English (C locale) ones.
- pandas' handling of a missing value (a NaN cell written as empty) is not modelled. `to_excel_bytes` is only ever called on the frame `generate_timesheet` builds, and that frame has no missing value (`GeneratedFrame`).
- Sheet.Worksheet.UpdateBlock: requires the block to lie inside the sheet's bounds. This is how `to_excel_bytes` uses it. A block reaching past the bounds would also grow `max_row` / `max_column`, and that case is not modelled.
- Python's `date` type raises for years outside 1..9999, but `calendar.weekday` normalises those years first. Its normalisation is modelled and proved sound (`WeekdayIsContinuous`). The widget's year range 2020..2100 is not imposed.
