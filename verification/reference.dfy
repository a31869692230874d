/**
 Reference definitions, independent of the engine, that say what its totals and
 reports ought to be: sums over the records, and the partition of the record
 stream into maximal runs of records that share a month (or a day of the month).
 */
module Reference {
  import opened Options
  import opened Calendar
  import opened DataProcessor

  function Last<T>(s: seq<T>): T
    requires |s| > 0
  {
    s[|s| - 1]
  }

  /** Sum of all readings. */
  function Sum(recs: seq<Record>): int
  {
    if |recs| == 0 then 0 else Sum(recs[..|recs| - 1]) + Last(recs).value
  }

  predicate OnChosenDay(rec: Record, chosenDay: int)
  {
    DayOfWeek(rec.timestamp.date) == chosenDay
  }

  /** Sum of the readings taken on the chosen day of the week. */
  function ChosenSum(recs: seq<Record>, chosenDay: int): int
  {
    if |recs| == 0 then 0
    else ChosenSum(recs[..|recs| - 1], chosenDay) + (if OnChosenDay(Last(recs), chosenDay) then Last(recs).value else 0)
  }

  /** Number of records (not distinct days) taken on the chosen day of the week. */
  function ChosenCount(recs: seq<Record>, chosenDay: int): nat
  {
    if |recs| == 0 then 0
    else ChosenCount(recs[..|recs| - 1], chosenDay) + (if OnChosenDay(Last(recs), chosenDay) then 1 else 0)
  }

  /** The two boundaries the engine watches. */
  datatype Boundary = ByMonth | ByDayOfMonth

  /** Whether two records lie on the same side of a boundary: the same month (whatever
      the year) or the same day of the month (whatever the month). */
  predicate SameKey(b: Boundary, x: Record, y: Record)
  {
    match b
    case ByMonth => x.timestamp.date.month == y.timestamp.date.month
    case ByDayOfMonth => x.timestamp.date.day == y.timestamp.date.day
  }

  /** Number of consecutive pairs that straddle the boundary. */
  function Changes(recs: seq<Record>, b: Boundary): nat
  {
    if |recs| <= 1 then 0
    else Changes(recs[..|recs| - 1], b) + (if SameKey(b, recs[|recs| - 2], Last(recs)) then 0 else 1)
  }

  function Flatten(runs: seq<seq<Record>>): seq<Record>
  {
    if |runs| == 0 then [] else Flatten(runs[..|runs| - 1]) + Last(runs)
  }

  lemma FlattenAppend(runs: seq<seq<Record>>, run: seq<Record>)
    ensures Flatten(runs + [run]) == Flatten(runs) + run
  {
    assert (runs + [run])[..|runs|] == runs;
  }

  /** The maximal runs of consecutive records on one side of the boundary, in order. */
  function Runs(recs: seq<Record>, b: Boundary): (runs: seq<seq<Record>>)
    ensures forall i :: 0 <= i < |runs| ==> |runs[i]| > 0
    ensures |recs| > 0 ==> |runs| > 0 && Last(Last(runs)) == Last(recs)
  {
    if |recs| == 0 then []
    else
      var prior := Runs(recs[..|recs| - 1], b);
      var rec := Last(recs);
      if |prior| > 0 && SameKey(b, Last(Last(prior)), rec) then
        prior[..|prior| - 1] + [Last(prior) + [rec]]
      else
        prior + [[rec]]
  }

  /** One step of Runs: the new record either extends the last run or starts a new one. */
  lemma RunsStep(recs: seq<Record>, b: Boundary)
    requires |recs| > 0
    ensures var prior := Runs(recs[..|recs| - 1], b);
      Runs(recs, b) ==
        if |prior| > 0 && SameKey(b, Last(Last(prior)), Last(recs)) then
          prior[..|prior| - 1] + [Last(prior) + [Last(recs)]]
        else prior + [[Last(recs)]]
  {
  }

  /** Adding a record to the last run adds it at the end of the flattened runs. */
  lemma FlattenExtendLast(front: seq<seq<Record>>, last: seq<Record>, rec: Record)
    ensures Flatten(front + [last + [rec]]) == Flatten(front + [last]) + [rec]
  {
    FlattenAppend(front, last);
    FlattenAppend(front, last + [rec]);
  }

  /** The runs, put back together, are the records. */
  lemma {:induction false} RunsFlatten(recs: seq<Record>, b: Boundary)
    ensures Flatten(Runs(recs, b)) == recs
  {
    if |recs| > 0 {
      var init := recs[..|recs| - 1];
      RunsFlatten(init, b);
      RunsStep(recs, b);
      var prior := Runs(init, b);
      var rec := Last(recs);
      assert recs == init + [rec];
      if |prior| > 0 && SameKey(b, Last(Last(prior)), rec) {
        var front := prior[..|prior| - 1];
        assert prior == front + [Last(prior)];
        FlattenExtendLast(front, Last(prior), rec);
      } else {
        FlattenAppend(prior, [rec]);
      }
    }
  }

  /** There is one run more than there are crossings of the boundary. */
  lemma {:induction false} RunsCount(recs: seq<Record>, b: Boundary)
    ensures |Runs(recs, b)| == if |recs| == 0 then 0 else Changes(recs, b) + 1
  {
    if |recs| > 0 {
      var init := recs[..|recs| - 1];
      RunsCount(init, b);
      RunsStep(recs, b);
      if |init| > 0 {
        assert Last(init) == recs[|recs| - 2];
        assert Last(Last(Runs(init, b))) == recs[|recs| - 2];
      }
    }
  }

  predicate RunsShareKeys(runs: seq<seq<Record>>, b: Boundary)
  {
    forall i, j :: 0 <= i < |runs| && 0 <= j < |runs[i]| ==> SameKey(b, runs[i][0], runs[i][j])
  }

  /** Extending the last run by a record of its key keeps every run on one key. */
  lemma ExtendLastRun(prior: seq<seq<Record>>, rec: Record, b: Boundary)
    requires |prior| > 0 && |Last(prior)| > 0 && RunsShareKeys(prior, b)
    requires SameKey(b, Last(Last(prior)), rec)
    ensures RunsShareKeys(prior[..|prior| - 1] + [Last(prior) + [rec]], b)
  {
    var runs := prior[..|prior| - 1] + [Last(prior) + [rec]];
    var n := |runs| - 1;
    assert SameKey(b, prior[n][0], prior[n][|prior[n]| - 1]);
    forall i, j | 0 <= i < |runs| && 0 <= j < |runs[i]|
      ensures SameKey(b, runs[i][0], runs[i][j])
    {
      if i < n {
        assert runs[i] == prior[i];
      } else if j < |prior[n]| {
        assert runs[i][j] == prior[n][j];
      }
    }
  }

  /** Opening a new run with one record keeps every run on one key. */
  lemma OpenRun(prior: seq<seq<Record>>, rec: Record, b: Boundary)
    requires RunsShareKeys(prior, b)
    ensures RunsShareKeys(prior + [[rec]], b)
  {
    var runs := prior + [[rec]];
    forall i, j | 0 <= i < |runs| && 0 <= j < |runs[i]|
      ensures SameKey(b, runs[i][0], runs[i][j])
    {
      if i < |prior| {
        assert runs[i] == prior[i];
      }
    }
  }

  /** Inside a run every record has the key of the run's first record. */
  lemma {:induction false} RunsShareKey(recs: seq<Record>, b: Boundary)
    ensures RunsShareKeys(Runs(recs, b), b)
  {
    if |recs| > 0 {
      var init := recs[..|recs| - 1];
      RunsShareKey(init, b);
      RunsStep(recs, b);
      var prior := Runs(init, b);
      if |prior| > 0 && SameKey(b, Last(Last(prior)), Last(recs)) {
        ExtendLastRun(prior, Last(recs), b);
      } else {
        OpenRun(prior, Last(recs), b);
      }
    }
  }

  /** Neighbouring runs lie on different sides of the boundary. */
  lemma {:induction false} RunsCutAtCrossings(recs: seq<Record>, b: Boundary)
    ensures var runs := Runs(recs, b);
      forall i :: 0 < i < |runs| ==> !SameKey(b, Last(runs[i - 1]), runs[i][0])
  {
    if |recs| > 0 {
      var init := recs[..|recs| - 1];
      RunsCutAtCrossings(init, b);
      RunsStep(recs, b);
      var prior := Runs(init, b);
      var rec := Last(recs);
      if |prior| > 0 && SameKey(b, Last(Last(prior)), rec) {
        var runs := prior[..|prior| - 1] + [Last(prior) + [rec]];
        forall i | 0 < i < |runs|
          ensures !SameKey(b, Last(runs[i - 1]), runs[i][0])
        {
          assert runs[i - 1] == prior[i - 1];
          assert runs[i][0] == prior[i][0];
        }
      } else {
        var runs := prior + [[rec]];
        forall i | 0 < i < |runs|
          ensures !SameKey(b, Last(runs[i - 1]), runs[i][0])
        {
          assert runs[i - 1] == prior[i - 1];
          if i < |prior| {
            assert runs[i] == prior[i];
          }
        }
      }
    }
  }

  /** The runs whose month is over: every run except the one still in progress. */
  function ClosedRuns(runs: seq<seq<Record>>): seq<seq<Record>>
  {
    if |runs| == 0 then [] else runs[..|runs| - 1]
  }

  /** What the month report of a finished month should say: its month and total and,
      when it holds chosen-day records, their truncated average labelled with the
      weekday of the month's last record. */
  function MonthSummary(run: seq<Record>, chosenDay: int): seq<Report>
    requires |run| > 0
  {
    var month := Some(Last(run).timestamp.date.month);
    [Monthly(month, Sum(run))]
    + if ChosenCount(run, chosenDay) > 0 then
        [Average(DayOfWeek(Last(run).timestamp.date), month,
                 TruncatingDiv(ChosenSum(run, chosenDay), ChosenCount(run, chosenDay)))]
      else []
  }

  function Summaries(runs: seq<seq<Record>>, chosenDay: int): seq<Report>
    requires forall i :: 0 <= i < |runs| ==> |runs[i]| > 0
  {
    if |runs| == 0 then []
    else Summaries(runs[..|runs| - 1], chosenDay) + MonthSummary(Last(runs), chosenDay)
  }

  /** The monthly lines (totals and averages) of a report stream, in order. */
  function MonthLines(out: seq<Report>): seq<Report>
  {
    if |out| == 0 then []
    else MonthLines(out[..|out| - 1]) + (if Last(out).Monthly? || Last(out).Average? then [Last(out)] else [])
  }

  /** The daily lines of a report stream, in order. */
  function DailyLines(out: seq<Report>): seq<Report>
  {
    if |out| == 0 then []
    else DailyLines(out[..|out| - 1]) + (if Last(out).Daily? then [Last(out)] else [])
  }

  /** Number of month-total lines in a report stream. */
  function CountMonthly(out: seq<Report>): nat
  {
    if |out| == 0 then 0
    else CountMonthly(out[..|out| - 1]) + (if Last(out).Monthly? then 1 else 0)
  }

  /** Sum of the totals of the month-total lines in a report stream. */
  function MonthlyTotalSum(out: seq<Report>): int
  {
    if |out| == 0 then 0
    else MonthlyTotalSum(out[..|out| - 1]) + (if Last(out).Monthly? then Last(out).total else 0)
  }
}
