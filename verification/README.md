# Solar-data aggregation engine, modelled in Dafny

This project models the core of a small Java tool that reads a CSV export of
timestamped solar-irradiance readings and reports totals over a chosen range of
months. Two classes form the core:

- `DataProcessor.processData` is a single-pass state machine. It folds the
  readings, in file order, into running totals at three granularities:
  - the whole period: `allSeasonValue` and `allValuesOfChosenDayInSeason`;
  - the current month: `oneMonthValue`, `allValuesOfChosenDayInOneMonth` and
    `numberOfChosenDaysInMonth`;
  - the current day: `daySum`.

  A change of month (only the `Month` is compared, not the year) emits the
  outgoing month's report and resets the monthly fields. A change of day of the
  month may emit a daily report for the chosen weekday and resets `daySum`.
  `logTotalResults` reports the two whole-period totals.
- `CSVReaderService.readAndProcessCSV` runs a row loop. It skips the 10 header
  rows and reads an empty value as 0. It forwards the rows whose year-month lies
  in `[from, to]`, in file order, and then calls `logTotalResults` once.

The model is functional:

- `DataProcessor.Processor` is an immutable record of the Java fields, under
  their Java names.
- `DataProcessor.ProcessData` returns the new state together with the report
  events the call emits. It is built from three parts, one per section of the
  Java method: `MonthBoundary`, `DayBoundary` and `Accumulate`.
- The report events (`Daily`, `Monthly`, `Average`, `SeasonTotal`,
  `ChosenDaySeasonTotal`) carry calendar values instead of Czech names.
- `DataProcessor.Process` folds `ProcessData` over a sequence of records,
  starting from a fresh processor.
- The private helpers `logDailyResults`, `logMonthlyResults` and
  `resetMonthlyData`, and the public `logTotalResults`, are the functions
  `LogDailyResults`, `LogMonthlyResults`, `ResetMonthlyData` and
  `LogTotalResults` (`DataProcessor.java:100-127`). Their contents are stated
  by the rows for `MonthBoundary`, `StepDailyLines`, `StepMonthLines`,
  `MonthLinesSummariseFinishedMonths` and `TotalResultsReportSums`.
- `Calendar` supplies the calendar facts as pure functions: the proleptic
  Gregorian leap-year rule, month lengths, and the ISO 8601 day of the week
  (1 = Monday ... 7 = Sunday). The day of the week is computed from a day count
  that starts at 0000-01-01, a Saturday. It is anchored by the Java epoch
  (1970-01-01 is a Thursday), and each next day advances it by one.
- `Reference` gives independent definitions of what the totals should be:
  sums over the records, and the partition of the stream into maximal runs of
  one month (or one day of the month). `Properties` proves the engine against
  them.
- `CsvReader` models the row loop as a method over already-parsed rows.

Readings and accumulators are unbounded integers. The Java code adds a `double`
reading to a `long` field, which truncates the sum. For integer-valued readings
that truncation is the identity, so the model is exact for them.

Five behaviours of the code worth noting:

- A record in the `to` month is summed like any other. Nothing excludes a
  trailing month (`DataProcessor.java:82-93`).
- `logTotalResults` prints the two totals and no advisory note
  (`DataProcessor.java:124-127`).
- The call at `CSVReaderService.java:82` passes a fourth argument that the
  three-argument `processData` does not accept. The model calls the
  three-argument method and drops that argument.
- A gap in the data that changes both the month and the day of the month,
  from a chosen weekday that is not the last day of its month, reports that
  day twice: once in the month branch and once in the day branch
  (`DataProcessor.java:57-76`, `Properties.GapAcrossMonthReportsDayTwice`).
- A month change that keeps the day of the month does not reset `daySum`
  (`DataProcessor.java:71-78`, `Properties.DaySumTotal`). For example,
  with Monday chosen, 2021-02-15 followed by 2021-03-15 reports the March day with
  the February reading included.

## Model

| member | source | states |
|---|---|---|
| Calendar.NextDayAdvancesWeekday | src/main/java/org/SDC/DataProcessor.java:57 | The ISO weekday value of the next calendar day is one more than today's, with Sunday (7) followed by Monday (1). |
| Calendar.YearLength | src/main/java/org/SDC/DataProcessor.java:73 | A year has 366 days exactly when it is a leap year under the Gregorian rule (divisible by 4, and not by 100 unless by 400). |
| Calendar.NextDay | src/main/java/org/SDC/DataProcessor.java:73 | The next day is a valid date. It lies in another month exactly when today is the last day of its month (month length with leap years). It always has another day of the month. |
| Calendar.YearMonthOrder | src/main/java/org/SDC/CSVReaderService.java:80-81 | `isBefore`/`isAfter` on year-months is the order of months on one line; neither holding means equal. |
| DataProcessor.TruncatingDiv | src/main/java/org/SDC/DataProcessor.java:110-111 | The average is the quotient truncated toward zero, for negative sums too; the divisor is positive, so it never divides by zero. |
| DataProcessor.MonthBoundary | src/main/java/org/SDC/DataProcessor.java:55-62 | Without a month change nothing is emitted and nothing changes. With one, exactly the three month fields (total, chosen-weekday sum and count) are reset; every other field is kept. |
| DataProcessor.DayBoundary | src/main/java/org/SDC/DataProcessor.java:71-79 | Without a change of day of the month nothing happens. With one, only `daySum` is reset. Every line emitted is a daily line for the chosen weekday, the previous date and the day sum before the reset. |
| DataProcessor.Accumulate | src/main/java/org/SDC/DataProcessor.java:82-93 | Every reading is added to the period and month totals. A reading on the chosen weekday is also added to the day sum and to the chosen-weekday month and period sums, and it raises the count by one; any other reading leaves those four untouched. The watermark fields are untouched. |
| DataProcessor.ProcessData | src/main/java/org/SDC/DataProcessor.java:49-97 | After a call the record is the last processed one, its month is the current month, and the period total grew by its value. A call emits at most four lines, all of them daily, monthly or average lines. |
| Properties.SeasonTotals | src/main/java/org/SDC/DataProcessor.java:82-91 | `allSeasonValue` is the sum of every reading ever passed. `allValuesOfChosenDayInSeason` is the sum of the readings on the chosen weekday. Neither is ever reset. |
| Properties.MonthTotals | src/main/java/org/SDC/DataProcessor.java:85-121 | The month total, the chosen-weekday month sum and the chosen-weekday record count cover exactly the records since the last month change, that is the last maximal run of one month. |
| Properties.DaySumTotal | src/main/java/org/SDC/DataProcessor.java:71-89 | `daySum` is the chosen-weekday sum since the day of the month last changed. A change of month with the same day of the month does not reset it. |
| Properties.SeasonSplitsIntoMonths | src/main/java/org/SDC/DataProcessor.java:82-118 | The period total equals the sum of the month totals already reported plus the month in progress. |
| Properties.TotalResultsReportSums | src/main/java/org/SDC/DataProcessor.java:124-127 | `logTotalResults` reports the sum of all readings and the sum of the chosen-weekday readings. It takes the state and returns no new one, so a second call emits the same lines. |
| Properties.OnlyBoundaryReports | src/main/java/org/SDC/DataProcessor.java:49-97 | `processData` never emits the period totals. |
| Properties.StepMonthLines | src/main/java/org/SDC/DataProcessor.java:55-62 | One call emits exactly the outgoing month's lines, with its total before the reset, when the month changes, and no month line otherwise. |
| Properties.MonthlyReportPerMonthChange | src/main/java/org/SDC/DataProcessor.java:55-61 | The number of month-total lines equals the number of consecutive record pairs with different months. The last month of the stream gets none. |
| Properties.MonthLinesSummariseFinishedMonths | src/main/java/org/SDC/DataProcessor.java:106-114 | The month lines of a run are the summaries of the finished months, in order. Each has the month, its total and, only when chosen-weekday records were counted, their truncated average labelled with the weekday of the month's last record. |
| Properties.StepDailyLines | src/main/java/org/SDC/DataProcessor.java:100-103 | Every daily line one call emits names the chosen weekday, the previous record's date and the day sum before any reset. |
| Properties.DailyLinesNameChosenDay | src/main/java/org/SDC/DataProcessor.java:57-58 | Every daily line of a run names the chosen weekday. |
| Properties.SameDateEmitsNothing | src/main/java/org/SDC/DataProcessor.java:55-79 | A record on the same date as the previous one emits no line. |
| Properties.MonthBoundaryOpensWithDailyLine | src/main/java/org/SDC/DataProcessor.java:55-60 | At a month change the date-inequality test always holds, so the daily line before the month lines depends on the weekday alone. |
| Properties.DailyLineOnNextDay | src/main/java/org/SDC/DataProcessor.java:55-77 | On a step to the next calendar day, the previous day is reported exactly once if it is the chosen weekday, with the chosen-weekday sum since the day of the month last changed (only that day's readings unless a gap kept the day of the month). A last day of a month is reported by the month branch only, any other day by the day branch. |
| Properties.GapAcrossMonthReportsDayTwice | src/main/java/org/SDC/DataProcessor.java:57-76 | A jump to another month and day of the month from a chosen weekday that is not the last day of its month reports that day twice: once in each branch. |
| Properties.SameMonthIsNoChange | src/main/java/org/SDC/DataProcessor.java:55-61 | The month test ignores the year: a record in the same month, of the same or of another year, is no month change. The call emits no month or average line and the month total keeps growing; the day branch may still emit a daily line. |
| Properties.NoChosenDayNoWeekdayLines | src/main/java/org/SDC/DataProcessor.java:88-93 | With a chosen day outside 1..7, no daily or average line is ever emitted and every weekday accumulator stays 0. |
| CsvReader.ToRecord | src/main/java/org/SDC/CSVReaderService.java:70-77 | A data row becomes a record with its timestamp and its value, and an empty (or null) value becomes 0. |
| CsvReader.InRangeIsInclusiveInterval | src/main/java/org/SDC/CSVReaderService.java:80-81 | A row is kept exactly when from <= its year-month <= to, both ends included. With `from` after `to` no row is kept. |
| CsvReader.SelectKeepsOrder | src/main/java/org/SDC/CSVReaderService.java:61-84 | Records are forwarded in file order: two stretches of rows forward the first stretch's records, then the second's. |
| CsvReader.SelectContents | src/main/java/org/SDC/CSVReaderService.java:70-83 | A record is forwarded exactly when some in-range data row produces it. |
| CsvReader.HeaderNeverForwarded | src/main/java/org/SDC/CSVReaderService.java:62-68 | The first 10 rows never reach the processor: files that differ only there forward the same records. |
| CsvReader.NothingForwardedWhenFromAfterTo | src/main/java/org/SDC/CSVReaderService.java:81-83 | If `from` is after `to`, nothing is forwarded. |
| CsvReader.ForwardedGrows | src/main/java/org/SDC/CSVReaderService.java:61-83 | Reading one more row forwards its record exactly when it is past the header and in range. |
| CsvReader.ReadAndProcessCsv | src/main/java/org/SDC/CSVReaderService.java:47-86 | The processor receives exactly the forwarded records, in file order and with the same chosen day. The final state and lines are those of that run. The two total lines are emitted once, at the end: the first carries the sum of the forwarded readings, and no earlier line is a total line. |

## Left out

- File reading, CSV tokenising and echoing the header to the console (`CSVReaderService.java:56-66`): these are I/O and an external library. The rows arrive already parsed.
- Short rows: a row, header or data, with fewer than two fields stops the run in the program (`CSVReaderService.java:66,71`), and `logTotalResults` is never reached. The model's rows always carry both fields.
- Parsing timestamps (`yyyyMMdd'T'HHmm`), year-months (`yyyyMM`) and numbers: the parsers are library code. A malformed field raises an exception in Java; the model takes well-formed `DateTime`, `YearMonth` and integer values.
- Czech day and month names and the logger (`DataProcessor.java:22-46`, `MyLogger`): reports carry the calendar values the names are looked up from. `MyLogger` is not part of this model.
- Floating-point readings and `long` and `int` overflow: readings are integer-valued and accumulators unbounded, including the `int` count `numberOfChosenDaysInMonth`. This makes the truncation in `long += double` the identity.
- The re-run/exit prompt and recursion into `ApplicationRunner.run` (`CSVReaderService.java:87-91`), and `ApplicationRunner`, `Main` and `UserChoicesHandler`: these are console interaction. The chosen day arrives as a parameter (0 when none was entered).
- Calendar range limits of `java.time` (years beyond ±999 999 999): the model's years are unbounded.
