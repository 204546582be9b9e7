# Timesheet reconciler — a Dafny model

The reconciler reads two timesheet exports for the same employees: the SAP
feed and the Zalaris HR feed. It turns each export into typed records and
builds two summaries per source:

- a **daily pivot**: hours per (Date, Employee), flagged when above 7.5 hours;
- a **monthly table**: hours per (Employee, month), compared with a ceiling of
  7.5 hours per working day of the month.

Finally it compares the SAP daily pivot with the Zalaris daily pivot and
reports each day whose hours differ.

The model is split into these modules:

- `Wrappers` (`wrappers.dfy`): `Option` and `Result`.
- `Calendar` (`calendar.dfy`):
  - proleptic Gregorian dates, day numbers and weekdays;
  - `BusdayCount`, the closed-form count `np.busday_count` performs, proved equal to counting Monday..Friday day numbers one by one;
  - `WorkingDays(y, m)`, the count from day 1 to the last day of the month, with that end exclusive.
- `Text` (`text.dfy`):
  - the `%d/%m/%Y` date format and the `%H:%M:%S` clock format, including the pandas timestamp range;
  - the subset of `float()` that reads decimal numerals;
  - the `.str.replace(' H', '')` unit removal of SAP hour cells;
  - each of these with its round trip.
- `Grouping` (`grouping.dfy`): the `pivot_table` grouping, computed in one pass and proved against a declarative reference. The reference says:
  - one group per distinct key, in first-appearance order;
  - the hours are the sum over the group's rows;
  - the descriptive value is the first row's;
  - the total of the hours is conserved.
- `Normaliser` (`normaliser.dfy`): `read_and_preprocess` as a method that works in the code's order:
  - it renames the header and looks up each column;
  - Date and Hours are converted strictly, for SAP rows;
  - Date, Approval date and Hours are converted strictly, for HR rows;
  - Start and End time are read tolerantly;
  - the whole result or the error is characterised in its contract.
- `Aggregation` (`aggregation.dfy`): `create_pivot` and `calculate_monthly_hours` as functions over the records, with their properties as lemmas.
- `Reconciler` (`reconciler.dfy`): `compare_hours` as a loop, proved equal to a recursive reference. Lemmas say which rows are reported and what each report carries.

## Behaviour worth knowing

- **Working days.** `np.busday_count(first, last)` treats its end date as exclusive, so a month's last day is never counted. This lowers the count by one exactly when the last day is a weekday (`Calendar.LastDayNeverCounted`). February 2024 has 21 Monday..Friday days but gets 20, because the 29th is a Thursday (`Calendar.February2024`).
- **One threshold.** The single constant `THRESHOLD_HOURS = 7.5` is used for both the daily flag and the monthly ceiling.
- **Comparison.** Any difference at all is reported; there is no tolerance band. A day of the first pivot without a counterpart is skipped silently, and days that only the second pivot has are never visited. Equal hours give code 0, which is not reported.
- **Strict columns.** Date, the HR Approval date and the Hours are converted strictly: one bad cell refuses the whole file. Cells that pandas reads as missing (an empty Date, "NaT", "NA") are the exception: the source keeps going with them, as "## Left out" describes. For SAP hours, `.astype(float)` raises on any cell that is not a number once ' H' is removed.
- **Column labels.** `compare_hours` writes the first pivot's hours under 'Zalaris Hours' and the second's under 'SAP Hours', but `main` passes the SAP pivot first. See Findings.

## Model

| member | source | states |
|---|---|---|
| Normaliser.Renames | main.py:11-22 | The rename map for each source. It renames only to the canonical names ID, Employee, AA code, AA text and Hours, and no canonical name is itself renamed. |
| Normaliser.Rename | main.py:11-22 | A name outside the map is kept as it is. A renamed name is never renamed again, so renaming twice is renaming once. |
| Normaliser.RenameTable | main.py:11-22 | Each raw column name is renamed to its canonical name for the source in use. The SAP-only names and the other source's names are left alone. |
| Normaliser.ColumnIndex | main.py:24 | A column is found at the first position holding its name, or the header does not hold the name. |
| Normaliser.Lookup | main.py:24 | A lookup yields the column's position, or `MissingColumn` naming a column the header lacks (pandas' KeyError). |
| Normaliser.ConvertStrict | main.py:24 | The loop converts a whole column. It succeeds exactly when every cell converts, and then yields each cell's value. Otherwise it names the first cell that fails, with its row and text. |
| Normaliser.SapRead | main.py:26-29 | Once the SAP columns are found and Date and Hours convert, the file is accepted. Every record then holds its row's date, hours, employee and descriptive cells, and the tolerantly read Start and End times. |
| Normaliser.HrRead | main.py:30-31 | Once the HR columns are found and Date, Approval date and Hours convert, the file is accepted. Every record then holds its row's values. |
| Normaliser.NormaliseSap | main.py:8-39 | For a SAP export, the reader succeeds exactly when every needed column is present and every Date and Hours cell converts. Success yields one record per row, as that row reads. An error is always a real defect of the file: a missing needed column, or a cell that does not convert. |
| Normaliser.NormaliseHr | main.py:8-39 | The same as NormaliseSap for an HR export, with Approval date as a third strict column. |
| Normaliser.Normalise | main.py:8-39 | The reader for either source, with the same contract as NormaliseSap and NormaliseHr. |
| Normaliser.MissingRefuses | main.py:22-24 | A file lacking a needed column is not accepted. |
| Normaliser.BadRowRefuses | main.py:24-31 | A file with one row whose strict cell does not convert is not accepted. |
| Text.ParseDate | main.py:24 | A date accepted by `%d/%m/%Y` is a real calendar date inside the pandas timestamp range. |
| Text.ParseDateOfFields | main.py:24 | Day, month and year fields joined by '/' read as the date they spell when it is valid and in range, and are refused otherwise. |
| Text.ParseFormatDate | main.py:24 | Every date in range written as dd/mm/yyyy reads back as itself. |
| Text.LeapDayAccepted | main.py:24 | "29/02/2024" reads as 29 February 2024. |
| Text.SingleDigitFieldsAccepted | main.py:24 | "1/2/2024" is accepted as 1 February 2024. |
| Text.LeapDayRefused | main.py:24 | "29/02/2023" is refused. |
| Text.ThirtyFirstOfAprilRefused | main.py:24 | "31/04/2024" is refused. |
| Text.TwoDigitYearRefused | main.py:24 | "01/02/24" is refused. |
| Text.IsoLayoutRefused | main.py:24 | "2024-02-01" is refused. |
| Text.ParseClock | main.py:28-29 | A time accepted by `%H:%M:%S` is a valid time of day. Leap seconds are refused. |
| Text.ParseFormatClock | main.py:28-29 | Every valid time written as hh:mm:ss reads back as itself. |
| Text.StripSlice | main.py:27 | The text `float()` reads is the input minus its blank prefix and blank suffix, and those runs are maximal: the stripped text neither starts nor ends with a blank. |
| Text.StripIsUnique | main.py:27 | Any slice with only blanks around it and none at its own ends is the stripped text. |
| Text.ParseDecimalIgnoresBlanks | main.py:27 | `float()` ignores surrounding blanks (space, '\t'..'\r' and the non-ASCII white space of `str.isspace`, but not the separators U+001C..U+001F): a numeral with blanks added before and after reads as the numeral alone, and text refused alone stays refused. |
| Text.ParseDecimal | main.py:27 | Text that `float()` accepts in this model consists only of digits, signs, points and blanks. |
| Text.RemoveUnit | main.py:27 | Removing every ' H' never lengthens the cell. |
| Text.ParseSapHours | main.py:27 | A SAP hours cell reads as a number only when, with every ' H' removed, it consists of digits, signs, points and blanks. |
| Text.ParseFormatDecimal | main.py:27 | A decimal numeral written with whole part `w` and `k` fraction digits `f` reads as `w + f/10^k`. |
| Text.SapHoursIgnoresUnit | main.py:27 | Appending the " H" unit to a cell does not change the hours it reads as. |
| Text.SapHoursOfFormatted | main.py:27 | A decimal numeral followed by " H" reads as the numeral's value. |
| Text.SapHoursRejectsOtherText | main.py:27 | A cell that still holds a non-numeral character after ' H' is removed makes the conversion fail. |
| Text.SapHoursDecimalCell | main.py:27 | "7.5 H" reads as 7.5. |
| Text.SapHoursWholeCell | main.py:27 | "8 H" reads as 8. |
| Text.SapHoursSeparatorRefused | main.py:27 | "\x1c8 H" is refused: a file separator is white space to `str.isspace` but not to `float()`. |
| Text.SapHoursUnspacedUnitRefused | main.py:27 | "7.5H" is refused: the unit is removed only together with its leading blank. |
| Text.SapHoursDecimalCommaRefused | main.py:27 | "7,5 H" is refused. |
| Grouping.Distinct | main.py:39 | The distinct keys: each key of the input exactly once, nothing else, and in the order of their first appearance. |
| Grouping.Group | main.py:39 | The one-pass grouping yields no more groups than rows, and at least one group for a non-empty input. |
| Grouping.GroupKeys | main.py:39 | The one-pass grouping yields one group per distinct key, in first-appearance order. |
| Grouping.GroupHours | main.py:37-39 | Each group's hours are the sum over exactly the rows with its key. |
| Grouping.GroupFirst | main.py:37-39 | Each group's descriptive value is that of the first row with its key. |
| Grouping.GroupConservesTotal | main.py:37-39 | Grouping neither loses nor invents hours. |
| Aggregation.DailyPivot | main.py:35-41 | The daily pivot has no more rows than records, at least one for non-empty records, and each row is flagged exactly when its hours exceed 7.5. |
| Aggregation.DailyPivotKeys | main.py:35-39 | The daily pivot has one row per distinct (Date, Employee) of the records, and no key twice. |
| Aggregation.DailyPivotHours | main.py:37-40 | Each pivot row's hours are the sum over all records of its employee on its date. The row is flagged exactly when that sum exceeds 7.5. |
| Aggregation.DailyPivotFirst | main.py:36-39 | Each pivot row's AA text, Receiver and Short Text (SAP), or AA code (HR), are those of the first record with its key. |
| Aggregation.DailyPivotConservesHours | main.py:39 | The pivot's hours add up to the records' hours. |
| Aggregation.ReadRecordsDated | main.py:24 | The reader's records have calendar dates with four-digit years, which the monthly table needs. |
| Aggregation.YearMonthText | main.py:47 | "YYYY-MM" of a month is seven characters with '-' as the fifth, between the four-digit year and the two-digit month. |
| Aggregation.SplitYearMonth | main.py:48 | Splitting "YYYY-MM" on '-' succeeds only on text holding a '-', and yields a non-negative year and month. |
| Aggregation.YearMonthRoundTrip | main.py:44-48 | A month written as "YYYY-MM" and split on '-' gives back its year and month. |
| Aggregation.YearMonthFebruary2024 | main.py:47 | February 2024 is written "2024-02". |
| Aggregation.MonthlyRowOf | main.py:47-53 | A monthly row keeps its group's employee, month and hours; YearMonth is "YYYY-MM" of the month; WorkingDays is the month's busday count; MaxWorkingHours is WorkingDays times 7.5; the row is flagged exactly when the hours exceed MaxWorkingHours. |
| Aggregation.MonthlyHours | main.py:43-55 | The monthly table has no more rows than records, at least one for non-empty records. Every row's WorkingDays is below the month's length, its MaxWorkingHours is WorkingDays times 7.5, and it is flagged exactly when its hours exceed MaxWorkingHours. |
| Aggregation.MonthlyKeysDistinct | main.py:44-48 | The monthly table has one row per distinct (Employee, month) of the records, whose Year and Month are that month. |
| Aggregation.MonthlyRows | main.py:45-53 | Each monthly row: its hours are the sum over all its employee's records in its month; YearMonth is "YYYY-MM" of Year and Month; WorkingDays counts the Monday..Friday days before the last day of the month and lies in 19..22; MaxWorkingHours is WorkingDays times 7.5; the row is flagged exactly when the hours exceed MaxWorkingHours. |
| Aggregation.MonthlyConservesHours | main.py:45 | The monthly table's hours add up to the records' hours. |
| Aggregation.February2024Ceiling | main.py:50-52 | February 2024's ceiling is 150 hours. |
| Calendar.Weekday | main.py:50-51 | The day of the week `np.busday_count` tests, 0 for Monday to 6 for Sunday. `FirstOfJanuary2024IsMonday` and `NextDayNumber` tie this numbering to the calendar. |
| Calendar.FirstOfJanuary2024IsMonday | main.py:50-51 | 1 January 2024, a Monday, has weekday 0. |
| Calendar.BusdayCount | main.py:50-51 | The business-day count over [begin, end) lies between 0 and the length of the range. |
| Calendar.WorkingDays | main.py:50-51 | A month's working days are fewer than its days. |
| Calendar.BusdayCountIsCount | main.py:50-51 | The closed-form business-day count equals the one-by-one count of Monday..Friday days in [begin, end). |
| Calendar.WorkingDaysAreWeekdaysBeforeLastDay | main.py:50-51 | A month's working days are the Monday..Friday days numbered 1 to last-1. |
| Calendar.WorkingDaysBounds | main.py:50-51 | Every month has 19 to 22 working days. |
| Calendar.LastDayNeverCounted | main.py:50-51 | Counting the last day as well would add one exactly when that day is a weekday. |
| Calendar.February2024 | main.py:50-51 | February 2024 gets 20 working days. The 29th is a Thursday, and an inclusive count would give 21. |
| Calendar.April2023 | main.py:50-51 | April 2023 gets 20 working days, and its last day is a Sunday. |
| Calendar.DaysInMonth | main.py:51 | `monthrange(y, m)[1]` lies in 28..31. It is 29 exactly for February of a leap year and 28 exactly for February of a common year. |
| Calendar.NextDayNumber | main.py:50-51 | The day after a valid date is valid and has the next day number, so weekdays advance one by one. |
| Reconciler.FirstMatch | main.py:65-68 | The counterpart is the first row of the second pivot with the same Date and Employee, or there is none. |
| Reconciler.Classify | main.py:69-74 | The code is 1 exactly when the first figure is larger, 2 exactly when it is smaller, and 0 exactly when they are equal. |
| Reconciler.Discrepancies | main.py:57-86 | The reference list of comparisons has at most one entry per row of the first pivot. Every entry has a non-zero code, which classifies its two figures. |
| Reconciler.CompareHours | main.py:57-86 | The loop's result is the reference list of comparisons for the two pivots. |
| Reconciler.EmittedExactly | main.py:59-76 | A row of the first pivot is reported exactly when it has a counterpart whose hours differ from its own. |
| Reconciler.DiscrepanciesAreReports | main.py:59-83 | The comparisons are, in order, one report per differing row. Each carries that row's date, employee and hours, the counterpart's hours, and the code. |
| Reconciler.DiscrepancyCodes | main.py:69-83 | Every comparison has code 1 or 2, and never equal hours. The code is 1 exactly when the first pivot's hours are larger. |
| Reconciler.OnlyFirstPivotKeys | main.py:59-67 | Every reported day is a day of the first pivot: days only the second pivot has are never reported. |
| Reconciler.SecondHoursFromFirstMatch | main.py:65-68 | The compared figure of the second pivot is that of the first row with the same key. |
| Reconciler.SapHoursUnderZalarisLabel | main.py:80-81 | As written, with SAP passed first, the column labelled 'Zalaris Hours' holds SAP's figure. |
| Reconciler.ComparisonFileLabels | main.py:101 | In the corrected comparison file, 'SAP Hours' holds the SAP row's hours and 'Zalaris Hours' holds its Zalaris counterpart's. Code 1 means SAP has more. |

## Left out

- Reading and writing CSV files, the UTF-8 byte-order mark, and the `main` driver's file names: the model starts from a header and rows of text cells (`RawTable`).
- Empty cells (pandas NaN): every cell is text. An empty Date or Hours cell is a conversion error, not a missing value. In the source an empty Date cell becomes NaT, and `groupby` then drops that row and its hours from both pivots without an error.
- Text.ParseDate: `pd.to_datetime(..., format='%d/%m/%Y')` does not reject "", "NaT", "nat" and "NAT", which it reads as NaT; pandas 2 also reads "now" and "today" as the current time. The source then silently loses a NaT row from both pivots, or dates a "now"/"today" row by the clock. The model refuses all of these, so a file holding them is refused instead.
- Normaliser.Normalise: pandas reads its default missing-value strings ("NA", "N/A", "null", "nan", "None" and others) as NaN. The source then sums an Hours cell "NA" as 0 in the pivots; the model refuses such a cell as not a number.
- Normaliser.Normalise: it also refuses a file that lacks AA text, Receiver, Short Text or Employee (SAP), or AA code or Employee (HR). `read_and_preprocess` does not read these columns itself: the KeyError comes from `pivot_table` in `create_pivot` (main.py:36-39), and the model moves those column lookups into the reader.
- Type inference by the CSV reader. An HR Hours column is read with the same decimal grammar as SAP hours, minus the unit. A SAP Hours column that pandas had typed as numbers would make `.str` fail; that case is not modelled.
- Duplicate column names, including those a rename produces (a SAP header with both "Number (unit)" and "Hours"): in the source `df['Hours']` is then a DataFrame and `.str` raises, or the pivot fails. The model reads the first matching column instead.
- Hours are exact rationals (`real`), not IEEE doubles. Rounding in sums is not modelled.
- Text.ParseDecimal: reads only ASCII decimal numerals. `float()` also accepts exponent notation (`1e3`), `inf` and `nan`, underscores between digits (PEP 515, so "7_5 H" reads as 75.0) and non-ASCII decimal digits; these are refused by the model.
- Text.ParseDate: the `%d`, `%m` and `%Y` fields read only ASCII digits. The strptime patterns pandas uses match any Unicode decimal digit, so the source also accepts dates written in, say, Arabic-Indic digits; the model refuses them. The same holds for `%H`, `%M` and `%S` in Text.ParseClock.
- Text.ParseClock: `%H:%M:%S` is modelled with one- or two-digit fields and seconds below 60. The `.dt.time` value is kept as (hour, minute, second).
- Aggregation.DailyPivotFirst: the 'first' aggregation skips missing values and takes the first non-missing one. The model has no missing values (every cell is text), so it keeps the first row's text, empty or not.
- Aggregation.MonthlyHours: `groupby` sorts the monthly rows by (Employee, Year, Month); the model keeps first-appearance order. The set of rows and each row's values are the same.
- Aggregation.DailyPivot: an export with the full header and no rows makes the source fail. `pivot_table` (dropna=True) drops every column that is all NaN, which on zero rows is every column, so `pivot_df['Hours']` (main.py:40) raises KeyError. The model accepts such an export and gives an empty pivot.
- Aggregation.DailyPivot: `pivot_table` sorts its rows by key, but the model keeps first-appearance order. The set of rows and each row's values are the same.
- Aggregation.MonthlyHours: the `YearMonth` column that `calculate_monthly_hours` adds to its input frame is not modelled.
- Normaliser.Normalise: it does not fix which error is reported when a file has several defects. Any reported error is one the file has.
- Unicode and encodings: strings are sequences of characters.

## Findings

| source | as written | input that shows it | evidently intended | confidence | as-written member | corrected member |
|---|---|---|---|---|---|---|
| main.py:80-81 | `compare_hours` puts the first pivot's hours under 'Zalaris Hours' and the second's under 'SAP Hours', while `main` (main.py:101) passes the SAP pivot first | SAP has 8.0 hours and Zalaris 7.5 on 2024-02-01 for employee "A": the file shows 8.0 under 'Zalaris Hours' | each figure under its own source's label | high; not executed | Reconciler.SapHoursUnderZalarisLabel | Reconciler.ComparisonFileLabels |
