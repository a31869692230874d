/**
 The row loop of CSVReaderService.readAndProcessCSV over rows that are already
 parsed: skip the header block, default an empty reading to 0, keep the rows
 whose year-month lies in [from, to], hand them to processData in file order
 with the same chosen day, and call logTotalResults once at the end.
 */
module CsvReader {
  import opened Options
  import opened Calendar
  import opened DataProcessor
  import Reference
  import Properties

  /** The number of leading CSV rows that form the file's header. */
  const HEADER_LINES: nat := 10

  /** A parsed CSV row: the timestamp column and the value column, None when that field is
      empty (or null). Every row carries both fields. */
  datatype Row = Row(timestamp: DateTime, value: Option<int>)

  /** The record handed to processData for a data row; an empty value counts as 0. */
  function ToRecord(row: Row): (rec: Record)
    ensures rec.timestamp == row.timestamp
    ensures row.value.None? ==> rec.value == 0
    ensures row.value.Some? ==> rec.value == row.value.value
  {
    Record(row.timestamp, if row.value.Some? then row.value.value else 0)
  }

  /** The `from`/`to` filter: neither before `from` nor after `to`. */
  predicate InRange(row: Row, from: YearMonth, to: YearMonth)
  {
    var ym := YearMonthOf(row.timestamp);
    !ym.IsBefore(from) && !ym.IsAfter(to)
  }

  /** The filter keeps exactly the rows between `from` and `to` in (year, month) order, both
      ends included; with `from` after `to` it keeps nothing. */
  lemma InRangeIsInclusiveInterval(row: Row, from: YearMonth, to: YearMonth)
    ensures InRange(row, from, to)
        <==> from.Index() <= YearMonthOf(row.timestamp).Index() <= to.Index()
    ensures to.IsBefore(from) ==> !InRange(row, from, to)
  {
    YearMonthOrder(YearMonthOf(row.timestamp), from);
    YearMonthOrder(YearMonthOf(row.timestamp), to);
    YearMonthOrder(to, from);
  }

  /** The rows after the header block. */
  function DataRows(rows: seq<Row>): seq<Row>
  {
    if |rows| <= HEADER_LINES then [] else rows[HEADER_LINES..]
  }

  /** The records of the in-range rows, in the order of the rows. */
  function Select(data: seq<Row>, from: YearMonth, to: YearMonth): (recs: seq<Record>)
    ensures |recs| <= |data|
  {
    if |data| == 0 then []
    else
      var row := data[|data| - 1];
      Select(data[..|data| - 1], from, to) + (if InRange(row, from, to) then [ToRecord(row)] else [])
  }

  /** What processData receives from a file. */
  function Forwarded(rows: seq<Row>, from: YearMonth, to: YearMonth): seq<Record>
  {
    Select(DataRows(rows), from, to)
  }

  /** Selection keeps file order: selecting from two stretches of rows one after the other
      yields the first stretch's records followed by the second's. */
  lemma {:induction false} SelectKeepsOrder(a: seq<Row>, b: seq<Row>, from: YearMonth, to: YearMonth)
    ensures Select(a + b, from, to) == Select(a, from, to) + Select(b, from, to)
  {
    if |b| == 0 {
      assert a + b == a;
    } else {
      var b' := b[..|b| - 1];
      SelectKeepsOrder(a, b', from, to);
      assert (a + b)[..|a + b| - 1] == a + b';
    }
  }

  /** Every forwarded record comes from an in-range data row, with an empty value read as 0,
      and every in-range data row is forwarded. */
  lemma {:induction false} SelectContents(data: seq<Row>, from: YearMonth, to: YearMonth)
    ensures forall rec :: rec in Select(data, from, to) <==>
              exists i :: 0 <= i < |data| && InRange(data[i], from, to) && rec == ToRecord(data[i])
  {
    if |data| > 0 {
      var init := data[..|data| - 1];
      SelectContents(init, from, to);
      forall rec
        ensures rec in Select(data, from, to) <==>
                exists i :: 0 <= i < |data| && InRange(data[i], from, to) && rec == ToRecord(data[i])
      {
        if exists i :: 0 <= i < |data| && InRange(data[i], from, to) && rec == ToRecord(data[i]) {
          var i :| 0 <= i < |data| && InRange(data[i], from, to) && rec == ToRecord(data[i]);
          if i < |init| {
            assert init[i] == data[i];
          }
        }
        if rec in Select(init, from, to) {
          var i :| 0 <= i < |init| && InRange(init[i], from, to) && rec == ToRecord(init[i]);
          assert data[i] == init[i];
        }
      }
    }
  }

  /** The header rows never reach processData: changing them changes nothing forwarded. */
  lemma HeaderNeverForwarded(rows: seq<Row>, other: seq<Row>, from: YearMonth, to: YearMonth)
    requires |rows| == |other| && |rows| >= HEADER_LINES
    requires rows[HEADER_LINES..] == other[HEADER_LINES..]
    ensures Forwarded(rows, from, to) == Forwarded(other, from, to)
  {
  }

  /** With `from` after `to` nothing is forwarded. */
  lemma {:induction false} NothingForwardedWhenFromAfterTo(data: seq<Row>, from: YearMonth, to: YearMonth)
    requires to.IsBefore(from)
    ensures Select(data, from, to) == []
  {
    if |data| > 0 {
      NothingForwardedWhenFromAfterTo(data[..|data| - 1], from, to);
      InRangeIsInclusiveInterval(data[|data| - 1], from, to);
    }
  }

  /** One more row of the file forwards its record when it is an in-range data row. */
  lemma ForwardedGrows(rows: seq<Row>, i: nat, from: YearMonth, to: YearMonth)
    requires i < |rows|
    ensures Forwarded(rows[..i + 1], from, to)
         == Forwarded(rows[..i], from, to)
            + (if i >= HEADER_LINES && InRange(rows[i], from, to) then [ToRecord(rows[i])] else [])
  {
    if i >= HEADER_LINES {
      var before := DataRows(rows[..i]);
      assert DataRows(rows[..i + 1]) == before + [rows[i]];
      assert (before + [rows[i]])[..|before|] == before;
    }
  }

  /** The closing total lines are the only ones in the stream. */
  lemma TotalsCloseTheStream(recs: seq<Record>, day: int)
    ensures var run := Process(recs, day);
      var reports := run.reports + LogTotalResults(run.state);
      && reports[|reports| - 2] == SeasonTotal(Reference.Sum(recs))
      && forall i :: 0 <= i < |reports| - 2 ==> !reports[i].SeasonTotal? && !reports[i].ChosenDaySeasonTotal?
  {
    var run := Process(recs, day);
    Properties.TotalResultsReportSums(recs, day);
    Properties.OnlyBoundaryReports(recs, day);
    var reports := run.reports + LogTotalResults(run.state);
    forall i | 0 <= i < |reports| - 2
      ensures !reports[i].SeasonTotal? && !reports[i].ChosenDaySeasonTotal?
    {
      assert reports[i] == run.reports[i];
      assert reports[i] in run.reports;
    }
  }

  /** readAndProcessCSV(filePath, from, to, day) over the parsed rows of the file, starting
      from a fresh processor. The processor receives exactly the forwarded records in file
      order with the same chosen day, and the two total lines close the report stream. */
  method ReadAndProcessCsv(rows: seq<Row>, from: YearMonth, to: YearMonth, day: int)
    returns (processor: Processor, reports: seq<Report>)
    ensures var run := Process(Forwarded(rows, from, to), day);
      processor == run.state && reports == run.reports + LogTotalResults(processor)
    ensures |reports| >= 2
    ensures reports[|reports| - 2] == SeasonTotal(Reference.Sum(Forwarded(rows, from, to)))
    ensures forall i :: 0 <= i < |reports| - 2 ==> !reports[i].SeasonTotal? && !reports[i].ChosenDaySeasonTotal?
  {
    processor := Initial;
    reports := [];
    var currentLine := 0;
    for i := 0 to |rows|
      invariant currentLine == i
      invariant Emitted(processor, reports) == Process(Forwarded(rows[..i], from, to), day)
    {
      currentLine := currentLine + 1;
      ForwardedGrows(rows, i, from, to);
      if currentLine <= HEADER_LINES {
        continue;
      }
      var row := rows[i];
      ghost var sent := Forwarded(rows[..i], from, to);
      if InRange(row, from, to) {
        assert Forwarded(rows[..i + 1], from, to) == sent + [ToRecord(row)];
        var step := ProcessData(processor, ToRecord(row), day);
        Properties.ProcessStep(sent, ToRecord(row), day);
        processor := step.state;
        reports := reports + step.reports;
        assert Emitted(processor, reports) == Process(sent + [ToRecord(row)], day);
      } else {
        assert Forwarded(rows[..i + 1], from, to) == sent;
      }
    }
    assert rows[..|rows|] == rows;
    TotalsCloseTheStream(Forwarded(rows, from, to), day);
    reports := reports + LogTotalResults(processor);
  }
}
