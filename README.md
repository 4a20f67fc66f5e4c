# Sales aggregation and projection of the `ishomework` sales viewer

The sales viewer is a JavaFX window that reads an Excel workbook of sales.
It builds a table `year -> month -> total` (`yearlyMonthlySales`) and offers
the years in a selector. For the selected year it draws a line chart of
twelve monthly points labelled with Russian month names.

This project models the core of that program in Dafny:

- `sheet.dfy` (module `Sheet`): cells and rows as the row loop sees them.
  - Apache POI's cell types and the accessors the loop calls (`getCell`,
    `getStringCellValue`, `getNumericCellValue`) are modelled, together with
    `String.trim`.
  - The library conversions are a `Library` value of partial functions:
    a date serial number to a local date in the system time zone,
    `LocalDateTime.parse` with the pattern `yyyy-MM-dd HH:mm:ss`, and
    `Double.parseDouble`. `None` means the call throws.
- `aggregation.dfy` (module `Aggregation`): the specification of the row loop.
  - Which rows contribute a sale (`Contribution`), and the sales of a sheet in
    row order (`Contributions`, `SheetSales`).
  - The table those sales build, defined as the loop's left fold of
    `computeIfAbsent(...).merge(..., Double::sum)` (`Aggregate`, `AddSale`,
    `Merge`, `MonthsOf`).
  - Lemmas about what that table means: entries, totals, shape, and neutral
    rows.
- `sums.dfy` (module `Sums`): the sum of the values of a map, with the update
  rule used in the total lemmas.
- `months.dfy` (module `Months`): `getMonthName` and the twelve-point series of
  `analyzeData`, with the lemma that the series keeps the year's total.
- `application.dfy` (module `Application`): the window state as a class
  `SalesApp`.
  - Fields: the table, the selector's items, the status line and the chart's
    series.
  - `Load` (`loadExcelFile`) and `Analyze` (`analyzeData`) are methods with
    loops proved against the specification functions.
- `scenario.dfy` (module `Scenario`): a small workbook worked through the
  model, from the rows to the chart.

The outcome of the file dialog and of opening the workbook is an input of
`Load` (`FileChoice`): no file chosen, a file that cannot be opened as a
workbook, or the workbook's sheets as sequences of rows.

Two points of the program's behaviour worth knowing:

- A load whose workbook cannot be opened does not clear the table. The table
  is cleared only after the workbook has opened (line 87, inside the `try`
  that opens it). The previous table, year list and chart stay; only the
  status changes.
- The status after a successful load does not show the processed-row count
  or the number of years. The format string at line 134 has no conversion for
  its arguments, so the status is a plain `Loaded`. `Load` returns the count
  so that its contract can state it.

One edge case as well: when a workbook opens but has no
sheet, `getSheetAt(0)` throws after the table was cleared: the table is empty,
the year list is unchanged, and the status reports the failure.

## Model

| member | source | states |
|---|---|---|
| Sheet.Trim | src/main/java/com/example/ishomework/HelloApplication.java:106 | the trimmed text is a contiguous part of the input from which only characters up to U+0020 were cut at the start and at the end; it starts and ends with a character above U+0020, and it is empty exactly when every character of the input is at most U+0020 |
| Sheet.TrimKeeps | src/main/java/com/example/ishomework/HelloApplication.java:106 | text whose first and last characters are above U+0020 is left unchanged by trimming |
| Aggregation.ContributionCases | src/main/java/com/example/ishomework/HelloApplication.java:98-130 | a row contributes exactly when its date cell exists and reads as a date and its amount cell exists and reads as a number; it then contributes that date's year and month and that amount |
| Aggregation.Contributions | src/main/java/com/example/ishomework/HelloApplication.java:96-131 | no more sales than rows are contributed |
| Aggregation.ContributionsFromRows | src/main/java/com/example/ishomework/HelloApplication.java:96-131 | every sale the loop takes in comes from a row that contributes it |
| Aggregation.RowsReachContributions | src/main/java/com/example/ishomework/HelloApplication.java:96-131 | every contributing row's sale is taken in |
| Aggregation.PrefixStep | src/main/java/com/example/ishomework/HelloApplication.java:96-131 | reading one more row appends exactly that row's contribution, nothing when it fails |
| Aggregation.AfterNextRow | src/main/java/com/example/ishomework/HelloApplication.java:98-127 | a failing row leaves the table and the count as they were; a contributing row merges its sale into the table and adds one to the count |
| Aggregation.LoopComputesAggregate | src/main/java/com/example/ishomework/HelloApplication.java:96-131 | the table and count built row by row over the first n rows equal the fold of their contributed sales and the number of those sales |
| Aggregation.LoopComputesSheet | src/main/java/com/example/ishomework/HelloApplication.java:93-131 | reading every row after the first builds the table of the sheet's sales and counts exactly those sales |
| Aggregation.AggregateStep | src/main/java/com/example/ishomework/HelloApplication.java:122-124 | the table of the sales followed by one more sale is the earlier table with that sale merged in |
| Aggregation.Merge | src/main/java/com/example/ishomework/HelloApplication.java:124 | `merge` with `Double::sum` adds the month as a key, stores the old value (or nothing) plus the amount there, and keeps every other month's value |
| Aggregation.ContributionsAppend | src/main/java/com/example/ishomework/HelloApplication.java:96-131 | the sales of two consecutive runs of rows are the first run's sales followed by the second's |
| Aggregation.FailingRowIsNeutral | src/main/java/com/example/ishomework/HelloApplication.java:98-130 | a row whose reading fails can be removed from any position without changing the sales, so it changes neither the table nor the count |
| Aggregation.HeaderIsDiscarded | src/main/java/com/example/ishomework/HelloApplication.java:93 | the first row never matters: sheets that differ only in their first row yield the same sales, those of the remaining rows |
| Aggregation.AggregateEntries | src/main/java/com/example/ishomework/HelloApplication.java:122-124 | the table has an entry for (year, month) exactly when some contributed sale falls in that month, and the entry is the total of those sales |
| Aggregation.NoSaleNoTotal | src/main/java/com/example/ishomework/HelloApplication.java:122-124 | a month with no sale has total 0 |
| Aggregation.AggregateShape | src/main/java/com/example/ishomework/HelloApplication.java:122-126 | the table's years are exactly the years of the contributed sales, every year's month map is non-empty, and every month key is in 1..12 |
| Aggregation.AggregateTotal | src/main/java/com/example/ishomework/HelloApplication.java:122-127 | the entries of the table add up to the sum of all contributed amounts |
| Months.MonthName | src/main/java/com/example/ishomework/HelloApplication.java:173-189 | the name is non-empty exactly for months 1..12 |
| Months.MonthNamesDistinct | src/main/java/com/example/ishomework/HelloApplication.java:175-186 | the twelve month names are pairwise different |
| Months.PrefixTotal | src/main/java/com/example/ishomework/HelloApplication.java:160-164 | the first n points of the series add up to the month entries at keys 1..n |
| Months.ProjectionKeepsTotal | src/main/java/com/example/ishomework/HelloApplication.java:158-164 | for a month map keyed by 1..12 the twelve points add up to the sum of all its entries, so nothing is lost or counted twice on the chart |
| Application.SortedYears | src/main/java/com/example/ishomework/HelloApplication.java:133 | the years in strictly ascending order, each year of the set once and nothing else |
| Application.BuildSeries | src/main/java/com/example/ishomework/HelloApplication.java:158-164 | the loop builds the twelve points for months 1..12 in order, each labelled with the month's name and valued at the entry or 0.0 |
| Application.SalesApp.constructor | src/main/java/com/example/ishomework/HelloApplication.java:29 | the window starts with an empty table and year list, and the state is consistent |
| Application.SalesApp.Load | src/main/java/com/example/ishomework/HelloApplication.java:84-140 | no file: nothing changes; unopenable file: only the status changes; no sheet: the table is cleared and the status reports failure; otherwise the table is the fold of the first sheet's sales, the count is their number, the year list holds exactly their years ascending, the status is loaded and the state is consistent; the chart is never touched |
| Application.SalesApp.ReadRows | src/main/java/com/example/ishomework/HelloApplication.java:93-131 | starting from the cleared table, the loop leaves the table of the sheet's sales, the year set equal to its years, and the count of contributing rows |
| Application.SalesApp.AddToTable | src/main/java/com/example/ishomework/HelloApplication.java:122-124 | one update merges the sale into its year's month map, creating the year when missing; the table's years gain exactly the sale's year |
| Application.SalesApp.Analyze | src/main/java/com/example/ishomework/HelloApplication.java:144-171 | no year: select-year status and chart kept; a year without data: no-data status and chart kept; otherwise the chart is replaced by exactly the year's twelve-point series; a year offered by a consistent selector always has data; the table and the selector never change |
| Scenario.SaleRowContribution | src/main/java/com/example/ishomework/HelloApplication.java:99-116 | a row with a text date and a numeric amount contributes exactly when its trimmed date text parses |
| Scenario.SecondRowFails | src/main/java/com/example/ishomework/HelloApplication.java:96-131 | four rows of which the second fails contribute the other three sales in order |
| Scenario.WorkbookTotals | src/main/java/com/example/ishomework/HelloApplication.java:93-164 | a header, sales of 100.0 and 50.0 in January 2024, an unparsable date and a padded February date with 30.0 give three sales, the table {2024: {1: 150.0, 2: 30.0}}, and a chart of 150.0, 30.0 and ten zeros |
| Scenario.LoadAndAnalyze | src/main/java/com/example/ishomework/HelloApplication.java:84-171 | loading that workbook counts three rows, offers only 2024, reports success, and analyzing 2024 draws its series |

## Left out

- The JavaFX window (`start`, `main`): layout, buttons and event wiring are presentation. The selector's current value is the parameter of `Analyze`; the chart is a sequence of series; the status line is an enumeration rather than Russian text.
- The file chooser, `FileInputStream` and `XSSFWorkbook`: file I/O. Their outcome is the `FileChoice` input of `Load`.
- Date conversion: `getDateCellValue` in the system time zone and `LocalDateTime.parse` with `yyyy-MM-dd HH:mm:ss` depend on the JDK and the time zone. They are the `dateOfSerial` and `parseDateTime` functions of `Library`, which return a year and a month in 1..12 or fail.
- Number parsing: `Double.parseDouble` is the `parseDouble` function of `Library`. A formula cell's cached numeric value is part of the cell.
- Aggregation.Merge: adds exact reals. Java's `Double::sum` rounds to binary64, so sums in the program can depend on row order and differ from the model's; a running sum can also overflow to Infinity.
- Library: `parseDouble` yields only finite amounts. `Double.parseDouble` also accepts "NaN", "Infinity" and out-of-range text such as "1e999"; such a row is counted and its year listed, but its month total and the chart point become NaN or Infinity. Aggregation.AggregateTotal and Months.ProjectionKeepsTotal hold only for finite amounts and finite sums.
- Diagnostic output to `System.err` and `printStackTrace`: no effect on the state.
- Application.SalesApp.Load: the status text after a successful load is modelled as `Loaded`; its format arguments (row count, year count) are ignored by the program itself.
- The row number in the error message of a failing row: only logged.
