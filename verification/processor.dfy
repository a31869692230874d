/**
 The single-pass aggregation engine of DataProcessor. The Java class mutates
 private fields and writes report lines to a logger; here the fields form an
 immutable Processor value, processData is a function from the old state and
 one record to the new state plus the report events it emits, and a whole run
 is the left fold of that step over the records.
 */
module DataProcessor {
  import opened Options
  import opened Calendar

  /** One reading as handed to processData: a timestamp and an integer-valued reading. */
  datatype Record = Record(timestamp: DateTime, value: int)

  /** The accumulator fields of DataProcessor, under their Java names. */
  datatype Processor = Processor(
    allSeasonValue: int,
    oneMonthValue: int,
    daySum: int,
    allValuesOfChosenDayInOneMonth: int,
    allValuesOfChosenDayInSeason: int,
    numberOfChosenDaysInMonth: int,
    currentMonth: Option<Month>,
    lastProcessedDay: Option<DateTime>)

  /** A freshly constructed DataProcessor. */
  const Initial := Processor(0, 0, 0, 0, 0, 0, None, None)

  /** The report lines, carrying calendar values instead of localized names. */
  datatype Report =
    | Daily(weekday: int, date: Date, total: int)
    | Monthly(month: Option<Month>, total: int)
    | Average(weekday: int, month: Option<Month>, average: int)
    | SeasonTotal(total: int)
    | ChosenDaySeasonTotal(total: int)

  /** The state after a call together with the report lines the call emitted, in order. */
  datatype Emitted = Emitted(state: Processor, reports: seq<Report>)

  /** Java's `long / int` division: the quotient truncated toward zero. */
  function TruncatingDiv(a: int, b: int): (q: int)
    requires b > 0
    ensures a >= 0 ==> 0 <= q * b <= a < q * b + b
    ensures a < 0 ==> q * b - b < a <= q * b <= 0
  {
    if a >= 0 then
      EuclideanBounds(a, b);
      a / b
    else
      EuclideanBounds(-a, b);
      -((-a) / b)
  }

  lemma EuclideanBounds(a: int, b: int)
    requires a >= 0 && b > 0
    ensures 0 <= (a / b) * b <= a < (a / b) * b + b
  {
    assert a == (a / b) * b + a % b;
  }

  /** logDailyResults: the previous record's weekday and date with the day's running sum. */
  function LogDailyResults(s: Processor): (out: seq<Report>)
    requires s.lastProcessedDay.Some?
  {
    var last := s.lastProcessedDay.value.date;
    [Daily(DayOfWeek(last), last, s.daySum)]
  }

  /** logMonthlyResults: the month total and, when at least one chosen-weekday record was
      summed this month, the truncated average of those records. The average line is
      labelled with the previous record's weekday, not with the chosen day. */
  function LogMonthlyResults(s: Processor): (out: seq<Report>)
    requires s.lastProcessedDay.Some?
  {
    var dayName := DayOfWeek(s.lastProcessedDay.value.date);
    [Monthly(s.currentMonth, s.oneMonthValue)]
    + if s.numberOfChosenDaysInMonth > 0 then
        [Average(dayName, s.currentMonth,
                 TruncatingDiv(s.allValuesOfChosenDayInOneMonth, s.numberOfChosenDaysInMonth))]
      else []
  }

  /** resetMonthlyData. */
  function ResetMonthlyData(s: Processor): Processor
  {
    s.(oneMonthValue := 0, allValuesOfChosenDayInOneMonth := 0, numberOfChosenDaysInMonth := 0)
  }

  /** logTotalResults: reads the state and changes nothing. */
  function LogTotalResults(s: Processor): seq<Report>
  {
    [SeasonTotal(s.allSeasonValue), ChosenDaySeasonTotal(s.allValuesOfChosenDayInSeason)]
  }

  /** True when the month of `t` differs from that of the previous record (the year is ignored). */
  predicate MonthChanges(s: Processor, t: DateTime)
  {
    s.lastProcessedDay.Some? && s.lastProcessedDay.value.date.month != t.date.month
  }

  /** True when the day of the month of `t` differs from that of the previous record. */
  predicate DayChanges(s: Processor, t: DateTime)
  {
    s.lastProcessedDay.Some? && s.lastProcessedDay.value.date.day != t.date.day
  }

  /** Only the report kinds processData can emit. */
  predicate IsBoundaryReport(r: Report)
  {
    r.Daily? || r.Monthly? || r.Average?
  }

  /** The month-boundary branch of processData: when the month changes, the previous day's
      line if it is the chosen weekday (and a different date), the outgoing month's lines, and
      the reset of the monthly fields. */
  function MonthBoundary(s: Processor, t: DateTime, chosenDay: int): (e: Emitted)
    ensures !MonthChanges(s, t) ==> e == Emitted(s, [])
    ensures MonthChanges(s, t) ==>
              e.state.oneMonthValue == 0 && e.state.allValuesOfChosenDayInOneMonth == 0
              && e.state.numberOfChosenDaysInMonth == 0
    ensures e.state.allSeasonValue == s.allSeasonValue && e.state.allValuesOfChosenDayInSeason == s.allValuesOfChosenDayInSeason
    ensures e.state.daySum == s.daySum
    ensures e.state.currentMonth == s.currentMonth && e.state.lastProcessedDay == s.lastProcessedDay
  {
    if MonthChanges(s, t) then
      var last := s.lastProcessedDay.value.date;
      var daily := if DayOfWeek(last) == chosenDay && last != t.date then LogDailyResults(s) else [];
      Emitted(ResetMonthlyData(s), daily + LogMonthlyResults(s))
    else Emitted(s, [])
  }

  /** The day-boundary branch of processData: when the day of the month changes, the previous
      day's line if it is the chosen weekday and not the last day of its month (that day was
      reported by the month branch), and the reset of the day sum. */
  function DayBoundary(s: Processor, t: DateTime, chosenDay: int): (e: Emitted)
    ensures !DayChanges(s, t) ==> e == Emitted(s, [])
    ensures DayChanges(s, t) ==> e.state == s.(daySum := 0)
    ensures forall i :: 0 <= i < |e.reports| ==>
              && s.lastProcessedDay.Some?
              && e.reports[i] == Daily(chosenDay, s.lastProcessedDay.value.date, s.daySum)
  {
    if DayChanges(s, t) then
      var last := s.lastProcessedDay.value.date;
      Emitted(s.(daySum := 0),
              if DayOfWeek(last) == chosenDay && !IsLastDayOfMonth(last) then LogDailyResults(s) else [])
    else Emitted(s, [])
  }

  /** The additions of processData: every reading goes to the period and month totals; a
      reading on the chosen weekday also to the day, month and period weekday totals and count. */
  function Accumulate(s: Processor, rec: Record, chosenDay: int): (r: Processor)
    ensures r.lastProcessedDay == s.lastProcessedDay && r.currentMonth == s.currentMonth
    ensures r.allSeasonValue == s.allSeasonValue + rec.value
    ensures r.oneMonthValue == s.oneMonthValue + rec.value
    ensures DayOfWeek(rec.timestamp.date) == chosenDay ==>
              && r.daySum == s.daySum + rec.value
              && r.allValuesOfChosenDayInOneMonth == s.allValuesOfChosenDayInOneMonth + rec.value
              && r.allValuesOfChosenDayInSeason == s.allValuesOfChosenDayInSeason + rec.value
              && r.numberOfChosenDaysInMonth == s.numberOfChosenDaysInMonth + 1
    ensures DayOfWeek(rec.timestamp.date) != chosenDay ==>
              && r.daySum == s.daySum
              && r.allValuesOfChosenDayInOneMonth == s.allValuesOfChosenDayInOneMonth
              && r.allValuesOfChosenDayInSeason == s.allValuesOfChosenDayInSeason
              && r.numberOfChosenDaysInMonth == s.numberOfChosenDaysInMonth
  {
    var s1 := s.(allSeasonValue := s.allSeasonValue + rec.value,
                 oneMonthValue := s.oneMonthValue + rec.value);
    if DayOfWeek(rec.timestamp.date) == chosenDay then
      s1.(daySum := s1.daySum + rec.value,
          allValuesOfChosenDayInOneMonth := s1.allValuesOfChosenDayInOneMonth + rec.value,
          allValuesOfChosenDayInSeason := s1.allValuesOfChosenDayInSeason + rec.value,
          numberOfChosenDaysInMonth := s1.numberOfChosenDaysInMonth + 1)
    else s1
  }

  /** processData(timestamp, value, chosenDay): the month branch, the update of the current
      month (overwritten whenever unset or different, so always the record's month), the day
      branch, the additions, and finally the record becomes the last processed one. */
  function ProcessData(s: Processor, rec: Record, chosenDay: int): (e: Emitted)
    ensures e.state.lastProcessedDay == Some(rec.timestamp)
    ensures e.state.currentMonth == Some(rec.timestamp.date.month)
    ensures e.state.allSeasonValue == s.allSeasonValue + rec.value
    ensures |e.reports| <= 4
    ensures forall i :: 0 <= i < |e.reports| ==> IsBoundaryReport(e.reports[i])
  {
    var t := rec.timestamp;
    var month := MonthBoundary(s, t, chosenDay);
    var day := DayBoundary(month.state.(currentMonth := Some(t.date.month)), t, chosenDay);
    Emitted(Accumulate(day.state, rec, chosenDay).(lastProcessedDay := Some(t)),
            month.reports + day.reports)
  }

  /** A run: processData called on every record in order, starting from a fresh processor,
      with the same chosen day throughout. */
  function Process(recs: seq<Record>, chosenDay: int): Emitted
  {
    if |recs| == 0 then Emitted(Initial, [])
    else
      var before := Process(recs[..|recs| - 1], chosenDay);
      var step := ProcessData(before.state, recs[|recs| - 1], chosenDay);
      Emitted(step.state, before.reports + step.reports)
  }
}
