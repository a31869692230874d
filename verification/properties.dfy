/**
 What a run of the engine computes, stated against the reference definitions:
 the running totals at the three granularities, the month reports, the daily
 reports at day and month boundaries, and the chosen-day switch.
 */
module Properties {
  import opened Options
  import opened Calendar
  import opened DataProcessor
  import opened Reference

  // ---------------------------------------------------------------------------
  // Sums and report filters over concatenations

  lemma SumsAppend(recs: seq<Record>, rec: Record, chosenDay: int)
    ensures Sum(recs + [rec]) == Sum(recs) + rec.value
    ensures ChosenSum(recs + [rec], chosenDay)
         == ChosenSum(recs, chosenDay) + (if OnChosenDay(rec, chosenDay) then rec.value else 0)
    ensures ChosenCount(recs + [rec], chosenDay)
         == ChosenCount(recs, chosenDay) + (if OnChosenDay(rec, chosenDay) then 1 else 0)
  {
    assert (recs + [rec])[..|recs|] == recs;
  }

  lemma {:induction false} ReportFiltersDistribute(a: seq<Report>, b: seq<Report>)
    ensures MonthLines(a + b) == MonthLines(a) + MonthLines(b)
    ensures DailyLines(a + b) == DailyLines(a) + DailyLines(b)
    ensures CountMonthly(a + b) == CountMonthly(a) + CountMonthly(b)
    ensures MonthlyTotalSum(a + b) == MonthlyTotalSum(a) + MonthlyTotalSum(b)
  {
    if |b| == 0 {
      assert a + b == a;
    } else {
      var b' := b[..|b| - 1];
      ReportFiltersDistribute(a, b');
      assert (a + b)[..|a + b| - 1] == a + b';
      assert Last(a + b) == Last(b);
    }
  }

  /** The lines of logMonthlyResults are month lines only: one total and at most one average. */
  lemma MonthlyResultsLines(s: Processor)
    requires s.lastProcessedDay.Some?
    ensures var m := LogMonthlyResults(s);
      && MonthLines(m) == m && DailyLines(m) == []
      && CountMonthly(m) == 1 && MonthlyTotalSum(m) == s.oneMonthValue
  {
    var m := LogMonthlyResults(s);
    SingleLine(m[0]);
    if |m| == 2 {
      SingleLine(m[1]);
      assert m == [m[0]] + [m[1]];
      ReportFiltersDistribute([m[0]], [m[1]]);
    }
  }

  lemma SingleLine(r: Report)
    ensures MonthLines([r]) == (if r.Monthly? || r.Average? then [r] else [])
    ensures DailyLines([r]) == (if r.Daily? then [r] else [])
    ensures CountMonthly([r]) == (if r.Monthly? then 1 else 0)
    ensures MonthlyTotalSum([r]) == (if r.Monthly? then r.total else 0)
  {
    assert [r][..0] == [];
  }

  /** The day branch emits daily lines only. */
  lemma {:induction false} DailyOnlyStream(out: seq<Report>)
    requires forall i :: 0 <= i < |out| ==> out[i].Daily?
    ensures MonthLines(out) == [] && CountMonthly(out) == 0 && MonthlyTotalSum(out) == 0
    ensures DailyLines(out) == out
  {
    if |out| > 0 {
      DailyOnlyStream(out[..|out| - 1]);
      assert out == out[..|out| - 1] + [Last(out)];
    }
  }

  /** Unfolding Process by one record. */
  lemma ProcessStep(recs: seq<Record>, rec: Record, chosenDay: int)
    ensures var before := Process(recs, chosenDay);
      var step := ProcessData(before.state, rec, chosenDay);
      Process(recs + [rec], chosenDay) == Emitted(step.state, before.reports + step.reports)
  {
    assert (recs + [rec])[..|recs|] == recs;
  }

  // ---------------------------------------------------------------------------
  // Running totals

  /** After a run the watermark fields describe the last record; before any record the
      processor is untouched. */
  lemma ProcessTracksLastRecord(recs: seq<Record>, chosenDay: int)
    ensures var s := Process(recs, chosenDay).state;
      && (|recs| == 0 ==> s == Initial)
      && (|recs| > 0 ==>
            && s.lastProcessedDay == Some(Last(recs).timestamp)
            && s.currentMonth == Some(Last(recs).timestamp.date.month))
  {
  }

  /** The whole-period totals are never reset: allSeasonValue is the sum of every reading
      and allValuesOfChosenDayInSeason the sum of the chosen-weekday readings. */
  lemma {:induction false} SeasonTotals(recs: seq<Record>, chosenDay: int)
    ensures Process(recs, chosenDay).state.allSeasonValue == Sum(recs)
    ensures Process(recs, chosenDay).state.allValuesOfChosenDayInSeason == ChosenSum(recs, chosenDay)
  {
    if |recs| > 0 {
      var init := recs[..|recs| - 1];
      SeasonTotals(init, chosenDay);
      SumsAppend(init, Last(recs), chosenDay);
      assert init + [Last(recs)] == recs;
    }
  }

  /** The monthly fields of a state summarise a run of records. */
  predicate MonthFields(s: Processor, run: seq<Record>, chosenDay: int)
  {
    && s.oneMonthValue == Sum(run)
    && s.allValuesOfChosenDayInOneMonth == ChosenSum(run, chosenDay)
    && s.numberOfChosenDaysInMonth == ChosenCount(run, chosenDay)
  }

  /** One call either extends the month's run by the record or, at a month change, starts a
      new run with it. */
  lemma MonthFieldsStep(s: Processor, run: seq<Record>, rec: Record, chosenDay: int)
    requires |run| > 0 && s.lastProcessedDay == Some(Last(run).timestamp)
    requires MonthFields(s, run, chosenDay)
    ensures MonthFields(ProcessData(s, rec, chosenDay).state,
                        if SameKey(ByMonth, Last(run), rec) then run + [rec] else [rec], chosenDay)
  {
    SumsAppend(run, rec, chosenDay);
    SumsAppend([], rec, chosenDay);
  }

  /** The first call starts the first month's run. */
  lemma MonthFieldsStart(rec: Record, chosenDay: int)
    ensures MonthFields(ProcessData(Initial, rec, chosenDay).state, [rec], chosenDay)
  {
    SumsAppend([], rec, chosenDay);
  }

  /** The monthly fields hold the sum, chosen-weekday sum and chosen-weekday record count of
      the records since the last change of month (the maximal trailing run of one month). */
  lemma {:induction false} MonthTotals(recs: seq<Record>, chosenDay: int)
    requires |recs| > 0
    ensures var s := Process(recs, chosenDay).state;
      var run := Last(Runs(recs, ByMonth));
      && s.oneMonthValue == Sum(run)
      && s.allValuesOfChosenDayInOneMonth == ChosenSum(run, chosenDay)
      && s.numberOfChosenDaysInMonth == ChosenCount(run, chosenDay)
  {
    var init := recs[..|recs| - 1];
    var rec := Last(recs);
    RunsStep(recs, ByMonth);
    if |init| == 0 {
      MonthFieldsStart(rec, chosenDay);
    } else {
      MonthTotals(init, chosenDay);
      ProcessTracksLastRecord(init, chosenDay);
      var prior := Runs(init, ByMonth);
      MonthFieldsStep(Process(init, chosenDay).state, Last(prior), rec, chosenDay);
    }
    assert MonthFields(Process(recs, chosenDay).state, Last(Runs(recs, ByMonth)), chosenDay);
  }

  /** One call either extends the day's run by the record or, at a change of the day of the
      month, starts a new run with it. */
  lemma DaySumStep(s: Processor, run: seq<Record>, rec: Record, chosenDay: int)
    requires |run| > 0 && s.lastProcessedDay == Some(Last(run).timestamp)
    requires s.daySum == ChosenSum(run, chosenDay)
    ensures ProcessData(s, rec, chosenDay).state.daySum
         == ChosenSum(if SameKey(ByDayOfMonth, Last(run), rec) then run + [rec] else [rec], chosenDay)
  {
    SumsAppend(run, rec, chosenDay);
    SumsAppend([], rec, chosenDay);
  }

  /** daySum holds the chosen-weekday sum of the records since the day of the month last
      changed; a change of month alone does not reset it. */
  lemma {:induction false} DaySumTotal(recs: seq<Record>, chosenDay: int)
    requires |recs| > 0
    ensures Process(recs, chosenDay).state.daySum == ChosenSum(Last(Runs(recs, ByDayOfMonth)), chosenDay)
  {
    var init := recs[..|recs| - 1];
    var rec := Last(recs);
    RunsStep(recs, ByDayOfMonth);
    if |init| == 0 {
      SumsAppend([], rec, chosenDay);
    } else {
      DaySumTotal(init, chosenDay);
      ProcessTracksLastRecord(init, chosenDay);
      var prior := Runs(init, ByDayOfMonth);
      DaySumStep(Process(init, chosenDay).state, Last(prior), rec, chosenDay);
    }
  }

  /** The period total splits into the month totals already reported plus the month in progress. */
  lemma {:induction false} SeasonSplitsIntoMonths(recs: seq<Record>, chosenDay: int)
    ensures var e := Process(recs, chosenDay);
      e.state.allSeasonValue == MonthlyTotalSum(e.reports) + e.state.oneMonthValue
  {
    if |recs| > 0 {
      var init := recs[..|recs| - 1];
      var rec := Last(recs);
      assert recs == init + [rec];
      SeasonSplitsIntoMonths(init, chosenDay);
      var before := Process(init, chosenDay);
      var step := ProcessData(before.state, rec, chosenDay);
      ReportFiltersDistribute(before.reports, step.reports);
      StepMonthLines(before.state, rec, chosenDay);
    }
  }

  /** processData never emits the period totals: they come from logTotalResults alone. */
  lemma {:induction false} OnlyBoundaryReports(recs: seq<Record>, chosenDay: int)
    ensures forall r :: r in Process(recs, chosenDay).reports ==> IsBoundaryReport(r)
  {
    if |recs| > 0 {
      var init := recs[..|recs| - 1];
      OnlyBoundaryReports(init, chosenDay);
      var before := Process(init, chosenDay);
      var step := ProcessData(before.state, Last(recs), chosenDay);
      assert Process(recs, chosenDay).reports == before.reports + step.reports;
    }
  }

  /** logTotalResults reports exactly the two whole-period sums. */
  lemma TotalResultsReportSums(recs: seq<Record>, chosenDay: int)
    ensures LogTotalResults(Process(recs, chosenDay).state)
         == [SeasonTotal(Sum(recs)), ChosenDaySeasonTotal(ChosenSum(recs, chosenDay))]
  {
    SeasonTotals(recs, chosenDay);
  }

  // ---------------------------------------------------------------------------
  // Month reports

  /** The reports of one call: the month branch's followed by the day branch's. */
  lemma ProcessDataReports(s: Processor, rec: Record, chosenDay: int)
    ensures var t := rec.timestamp;
      var month := MonthBoundary(s, t, chosenDay);
      var day := DayBoundary(month.state.(currentMonth := Some(t.date.month)), t, chosenDay);
      ProcessData(s, rec, chosenDay).reports == month.reports + day.reports
  {
  }

  /** The month branch emits the outgoing month's lines, behind at most a daily line. */
  lemma MonthBranchLines(s: Processor, t: DateTime, chosenDay: int)
    ensures var out := MonthBoundary(s, t, chosenDay).reports;
      && MonthLines(out) == (if MonthChanges(s, t) then LogMonthlyResults(s) else [])
      && CountMonthly(out) == (if MonthChanges(s, t) then 1 else 0)
      && MonthlyTotalSum(out) == (if MonthChanges(s, t) then s.oneMonthValue else 0)
  {
    if MonthChanges(s, t) {
      var last := s.lastProcessedDay.value.date;
      var daily := if DayOfWeek(last) == chosenDay && last != t.date then LogDailyResults(s) else [];
      assert MonthBoundary(s, t, chosenDay).reports == daily + LogMonthlyResults(s);
      ReportFiltersDistribute(daily, LogMonthlyResults(s));
      DailyOnlyStream(daily);
      MonthlyResultsLines(s);
    }
  }

  /** The month lines one call emits: the outgoing month's lines when the month changes,
      nothing otherwise. */
  lemma StepMonthLines(s: Processor, rec: Record, chosenDay: int)
    ensures var out := ProcessData(s, rec, chosenDay).reports;
      && MonthLines(out) == (if MonthChanges(s, rec.timestamp) then LogMonthlyResults(s) else [])
      && CountMonthly(out) == (if MonthChanges(s, rec.timestamp) then 1 else 0)
      && MonthlyTotalSum(out) == (if MonthChanges(s, rec.timestamp) then s.oneMonthValue else 0)
  {
    var t := rec.timestamp;
    var month := MonthBoundary(s, t, chosenDay);
    var day := DayBoundary(month.state.(currentMonth := Some(t.date.month)), t, chosenDay);
    ProcessDataReports(s, rec, chosenDay);
    ReportFiltersDistribute(month.reports, day.reports);
    DailyOnlyStream(day.reports);
    MonthBranchLines(s, t, chosenDay);
  }

  /** One month-total line per consecutive pair of records whose months differ; the month in
      progress at the end of the stream gets none. */
  lemma {:induction false} MonthlyReportPerMonthChange(recs: seq<Record>, chosenDay: int)
    ensures CountMonthly(Process(recs, chosenDay).reports) == Changes(recs, ByMonth)
  {
    if |recs| > 0 {
      var init := recs[..|recs| - 1];
      var rec := Last(recs);
      assert recs == init + [rec];
      MonthlyReportPerMonthChange(init, chosenDay);
      ProcessTracksLastRecord(init, chosenDay);
      var before := Process(init, chosenDay);
      ReportFiltersDistribute(before.reports, ProcessData(before.state, rec, chosenDay).reports);
      StepMonthLines(before.state, rec, chosenDay);
      if |init| > 0 {
        assert Last(init) == recs[|recs| - 2];
      }
    }
  }

  /** The month lines of a run are exactly the summaries of the finished months, in order: each
      month's total before the reset and, when it held chosen-weekday records, their truncated
      average; the last month of the stream is never summarised. */
  lemma {:induction false} MonthLinesSummariseFinishedMonths(recs: seq<Record>, chosenDay: int)
    ensures var runs := Runs(recs, ByMonth);
      MonthLines(Process(recs, chosenDay).reports) == Summaries(ClosedRuns(runs), chosenDay)
  {
    if |recs| > 0 {
      var init := recs[..|recs| - 1];
      var rec := Last(recs);
      assert recs == init + [rec];
      MonthLinesSummariseFinishedMonths(init, chosenDay);
      var before := Process(init, chosenDay);
      ReportFiltersDistribute(before.reports, ProcessData(before.state, rec, chosenDay).reports);
      StepMonthLines(before.state, rec, chosenDay);
      RunsStep(recs, ByMonth);
      var prior := Runs(init, ByMonth);
      if |init| > 0 {
        ProcessTracksLastRecord(init, chosenDay);
        if MonthChanges(before.state, rec.timestamp) {
          MonthTotals(init, chosenDay);
          assert Runs(recs, ByMonth) == prior + [[rec]];
          assert ClosedRuns(prior + [[rec]]) == prior;
          assert prior == ClosedRuns(prior) + [Last(prior)];
          assert LogMonthlyResults(before.state) == MonthSummary(Last(prior), chosenDay);
        } else {
          assert ClosedRuns(Runs(recs, ByMonth)) == ClosedRuns(prior);
        }
      }
    }
  }

  // ---------------------------------------------------------------------------
  // Daily reports

  /** Every daily line one call emits names the chosen weekday and the previous record's date. */
  lemma StepDailyLines(s: Processor, rec: Record, chosenDay: int)
    ensures var out := ProcessData(s, rec, chosenDay).reports;
      forall i :: 0 <= i < |out| && out[i].Daily? ==>
        && s.lastProcessedDay.Some?
        && out[i] == Daily(chosenDay, s.lastProcessedDay.value.date, s.daySum)
  {
    var t := rec.timestamp;
    var month := MonthBoundary(s, t, chosenDay);
    var day := DayBoundary(month.state.(currentMonth := Some(t.date.month)), t, chosenDay);
    assert ProcessData(s, rec, chosenDay).reports == month.reports + day.reports;
  }

  /** Every daily line of a run names the chosen weekday. */
  lemma {:induction false} DailyLinesNameChosenDay(recs: seq<Record>, chosenDay: int)
    ensures forall r :: r in Process(recs, chosenDay).reports && r.Daily? ==> r.weekday == chosenDay
  {
    if |recs| > 0 {
      var init := recs[..|recs| - 1];
      DailyLinesNameChosenDay(init, chosenDay);
      var before := Process(init, chosenDay);
      var step := ProcessData(before.state, Last(recs), chosenDay);
      StepDailyLines(before.state, Last(recs), chosenDay);
      assert Process(recs, chosenDay).reports == before.reports + step.reports;
      forall r | r in step.reports && r.Daily?
        ensures r.weekday == chosenDay
      {
        var j :| 0 <= j < |step.reports| && step.reports[j] == r;
      }
    }
  }

  /** Consecutive records of the same date emit nothing. */
  lemma SameDateEmitsNothing(s: Processor, rec: Record, chosenDay: int)
    requires s.lastProcessedDay.Some? && s.lastProcessedDay.value.date == rec.timestamp.date
    ensures ProcessData(s, rec, chosenDay).reports == []
  {
  }

  /** When the month changes, the previous record's date always differs from the new one, so
      the daily line ahead of the month report depends on the weekday alone. */
  lemma MonthBoundaryOpensWithDailyLine(s: Processor, rec: Record, chosenDay: int)
    requires MonthChanges(s, rec.timestamp)
    ensures var last := s.lastProcessedDay.value.date;
      var head := (if DayOfWeek(last) == chosenDay then LogDailyResults(s) else []) + LogMonthlyResults(s);
      ProcessData(s, rec, chosenDay).reports[..|head|] == head
  {
  }

  /** The daily line the month branch emits: the previous day's, when the month changes and
      that day is the chosen weekday on another date. */
  lemma MonthBranchDailyLines(s: Processor, t: DateTime, chosenDay: int)
    ensures DailyLines(MonthBoundary(s, t, chosenDay).reports)
         == if MonthChanges(s, t) && DayOfWeek(s.lastProcessedDay.value.date) == chosenDay
               && s.lastProcessedDay.value.date != t.date
            then LogDailyResults(s) else []
  {
    if MonthChanges(s, t) {
      var last := s.lastProcessedDay.value.date;
      var daily := if DayOfWeek(last) == chosenDay && last != t.date then LogDailyResults(s) else [];
      assert MonthBoundary(s, t, chosenDay).reports == daily + LogMonthlyResults(s);
      ReportFiltersDistribute(daily, LogMonthlyResults(s));
      DailyOnlyStream(daily);
      MonthlyResultsLines(s);
    }
  }

  /** One call on the next calendar day reports the previous day once, if it is the chosen
      weekday: through the month branch when it closed its month, through the day branch otherwise. */
  lemma StepToNextDay(s: Processor, rec: Record, chosenDay: int)
    requires s.lastProcessedDay.Some? && ValidDate(s.lastProcessedDay.value.date)
    requires rec.timestamp.date == NextDay(s.lastProcessedDay.value.date)
    ensures var prev := s.lastProcessedDay.value.date;
      DailyLines(ProcessData(s, rec, chosenDay).reports)
      == if DayOfWeek(prev) == chosenDay then [Daily(chosenDay, prev, s.daySum)] else []
    ensures var prev := s.lastProcessedDay.value.date;
      DailyLines(MonthBoundary(s, rec.timestamp, chosenDay).reports)
      == if DayOfWeek(prev) == chosenDay && IsLastDayOfMonth(prev) then [Daily(chosenDay, prev, s.daySum)] else []
  {
    StepDailyLinesFormula(s, rec, chosenDay);
    MonthBranchDailyLines(s, rec.timestamp, chosenDay);
  }

  /** On a step to the next calendar day the previous day, if it is the chosen weekday, is
      reported exactly once with the chosen-weekday sum since the day of the month last
      changed (only that day's readings unless a gap kept the day of the month): by the month
      branch when it closed its month, otherwise by the day branch. */
  lemma DailyLineOnNextDay(recs: seq<Record>, rec: Record, chosenDay: int)
    requires |recs| > 0
    requires ValidDate(Last(recs).timestamp.date)
    requires rec.timestamp.date == NextDay(Last(recs).timestamp.date)
    ensures var s := Process(recs, chosenDay).state;
      var prev := Last(recs).timestamp.date;
      DailyLines(ProcessData(s, rec, chosenDay).reports)
      == if DayOfWeek(prev) == chosenDay
         then [Daily(chosenDay, prev, ChosenSum(Last(Runs(recs, ByDayOfMonth)), chosenDay))]
         else []
    ensures var s := Process(recs, chosenDay).state;
      var prev := Last(recs).timestamp.date;
      DailyLines(MonthBoundary(s, rec.timestamp, chosenDay).reports)
      == if DayOfWeek(prev) == chosenDay && IsLastDayOfMonth(prev)
         then [Daily(chosenDay, prev, ChosenSum(Last(Runs(recs, ByDayOfMonth)), chosenDay))]
         else []
  {
    ProcessTracksLastRecord(recs, chosenDay);
    DaySumTotal(recs, chosenDay);
    StepToNextDay(Process(recs, chosenDay).state, rec, chosenDay);
  }

  /** Across a gap in the data that changes the month and the day of the month, from a chosen
      weekday that is not the last day of its month, the previous day is reported twice: once
      ahead of the month report and again by the day branch. */
  lemma GapAcrossMonthReportsDayTwice(s: Processor, rec: Record, chosenDay: int)
    requires MonthChanges(s, rec.timestamp) && DayChanges(s, rec.timestamp)
    requires !IsLastDayOfMonth(s.lastProcessedDay.value.date)
    requires DayOfWeek(s.lastProcessedDay.value.date) == chosenDay
    ensures var d := Daily(chosenDay, s.lastProcessedDay.value.date, s.daySum);
      DailyLines(ProcessData(s, rec, chosenDay).reports) == [d, d]
  {
    StepDailyLinesFormula(s, rec, chosenDay);
  }

  /** The daily lines of one call: the month branch's, then the day branch's. */
  lemma StepDailyLinesFormula(s: Processor, rec: Record, chosenDay: int)
    requires s.lastProcessedDay.Some?
    ensures var t := rec.timestamp;
      var prev := s.lastProcessedDay.value.date;
      DailyLines(ProcessData(s, rec, chosenDay).reports)
      == (if MonthChanges(s, t) && DayOfWeek(prev) == chosenDay && prev != t.date
          then LogDailyResults(s) else [])
         + (if DayChanges(s, t) && DayOfWeek(prev) == chosenDay && !IsLastDayOfMonth(prev)
            then LogDailyResults(s) else [])
  {
    var t := rec.timestamp;
    var month := MonthBoundary(s, t, chosenDay);
    var day := DayBoundary(month.state.(currentMonth := Some(t.date.month)), t, chosenDay);
    ProcessDataReports(s, rec, chosenDay);
    ReportFiltersDistribute(month.reports, day.reports);
    MonthBranchDailyLines(s, t, chosenDay);
    DayBranchAfterMonthBranch(s, t, chosenDay);
    DailyOnlyStream(day.reports);
  }

  /** The day branch runs on the state the month branch left, which has the same last record
      and day sum, so its daily line is the one for the previous record. */
  lemma DayBranchAfterMonthBranch(s: Processor, t: DateTime, chosenDay: int)
    requires s.lastProcessedDay.Some?
    ensures var month := MonthBoundary(s, t, chosenDay);
      var prev := s.lastProcessedDay.value.date;
      DayBoundary(month.state.(currentMonth := Some(t.date.month)), t, chosenDay).reports
      == if DayChanges(s, t) && DayOfWeek(prev) == chosenDay && !IsLastDayOfMonth(prev)
         then LogDailyResults(s) else []
  {
  }

  /** The month check ignores the year: the same month, of the same or of another year, is no
      month change, so no month line is emitted (the day branch may still emit a daily line). */
  lemma SameMonthIsNoChange(s: Processor, rec: Record, chosenDay: int)
    requires s.lastProcessedDay.Some?
    requires s.lastProcessedDay.value.date.month == rec.timestamp.date.month
    ensures MonthLines(ProcessData(s, rec, chosenDay).reports) == []
    ensures CountMonthly(ProcessData(s, rec, chosenDay).reports) == 0
    ensures ProcessData(s, rec, chosenDay).state.oneMonthValue == s.oneMonthValue + rec.value
  {
    StepMonthLines(s, rec, chosenDay);
  }

  // ---------------------------------------------------------------------------
  // No chosen day

  /** With a chosen day outside 1..7 (0 standing for none) no daily or average line is ever
      emitted and every weekday accumulator stays 0. */
  lemma {:induction false} NoChosenDayNoWeekdayLines(recs: seq<Record>, chosenDay: int)
    requires !(1 <= chosenDay <= 7)
    ensures var e := Process(recs, chosenDay);
      && (forall i :: 0 <= i < |e.reports| ==> !e.reports[i].Daily? && !e.reports[i].Average?)
      && e.state.daySum == 0
      && e.state.allValuesOfChosenDayInOneMonth == 0
      && e.state.allValuesOfChosenDayInSeason == 0
      && e.state.numberOfChosenDaysInMonth == 0
  {
    if |recs| > 0 {
      var init := recs[..|recs| - 1];
      NoChosenDayNoWeekdayLines(init, chosenDay);
    }
  }
}
