/**
 The calendar facts the aggregation engine relies on, written as pure functions:
 months, the proleptic Gregorian leap-year rule, month lengths, the ISO 8601
 day of the week (1 = Monday ... 7 = Sunday) and year-month comparison, in the
 sense of java.time's Month, LocalDate, DayOfWeek and YearMonth.
 */
module Calendar {

  datatype Month =
    | January | February | March | April | May | June
    | July | August | September | October | November | December
  {
    /** Month.getValue(): 1 = January ... 12 = December. */
    function Value(): (n: int)
      ensures 1 <= n <= 12
    {
      match this
      case January => 1   case February => 2   case March => 3
      case April => 4     case May => 5        case June => 6
      case July => 7      case August => 8     case September => 9
      case October => 10  case November => 11  case December => 12
    }

    /** Month.length(leapYear): the number of days of this month. */
    function Length(leapYear: bool): (n: int)
      ensures 28 <= n <= 31
      ensures n == 28 <==> this == February && !leapYear
      ensures n == 29 <==> this == February && leapYear
    {
      match this
      case February => if leapYear then 29 else 28
      case April => 30
      case June => 30
      case September => 30
      case November => 30
      case _ => 31
    }

    /** The following month; December is followed by January. */
    function Next(): (m: Month)
      ensures m.Value() == this.Value() % 12 + 1
    {
      match this
      case January => February   case February => March     case March => April
      case April => May          case May => June           case June => July
      case July => August        case August => September   case September => October
      case October => November   case November => December  case December => January
    }
  }

  /** Month.of(n) for 1 <= n <= 12. */
  function MonthOf(n: int): (m: Month)
    requires 1 <= n <= 12
    ensures m.Value() == n
  {
    if n == 1 then January else if n == 2 then February else if n == 3 then March
    else if n == 4 then April else if n == 5 then May else if n == 6 then June
    else if n == 7 then July else if n == 8 then August else if n == 9 then September
    else if n == 10 then October else if n == 11 then November else December
  }

  /** Value and MonthOf are inverse to each other, so comparing months by value is comparing months. */
  lemma MonthValueRoundTrip(m: Month)
    ensures MonthOf(m.Value()) == m
  {
  }

  /** The proleptic Gregorian leap-year rule (IsoChronology.isLeapYear). Only zero
      remainders are tested, so the sign convention of the remainder does not matter. */
  predicate IsLeapYear(year: int)
  {
    year % 4 == 0 && (year % 100 != 0 || year % 400 == 0)
  }

  datatype Date = Date(year: int, month: Month, day: int)

  /** The time of day plays no part in the engine beyond being carried along. */
  datatype DateTime = DateTime(date: Date, hour: int, minute: int)

  predicate ValidDate(d: Date)
  {
    1 <= d.day <= d.month.Length(IsLeapYear(d.year))
  }

  predicate IsLastDayOfMonth(d: Date)
  {
    d.month.Length(IsLeapYear(d.year)) == d.day
  }

  /** The calendar day after a valid date. */
  function NextDay(d: Date): (r: Date)
    requires ValidDate(d)
    ensures ValidDate(r)
    ensures r.month == d.month <==> !IsLastDayOfMonth(d)
    ensures r.day != d.day
  {
    if d.day < d.month.Length(IsLeapYear(d.year)) then d.(day := d.day + 1)
    else if d.month == December then Date(d.year + 1, January, 1)
    else Date(d.year, d.month.Next(), 1)
  }

  /** Days from 0000-01-01 to the first of January of `year`: 365 per year plus one
      per leap year in between (floor division, so this holds for negative years too). */
  function DaysBeforeYear(year: int): int
  {
    365 * year + (year + 3) / 4 - (year + 99) / 100 + (year + 399) / 400
  }

  /** Days from the first of January to the first of month `m`. */
  function DaysBeforeMonth(m: Month, leapYear: bool): int
  {
    var leapDay := if leapYear then 1 else 0;
    match m
    case January => 0
    case February => 31
    case March => 59 + leapDay
    case April => 90 + leapDay
    case May => 120 + leapDay
    case June => 151 + leapDay
    case July => 181 + leapDay
    case August => 212 + leapDay
    case September => 243 + leapDay
    case October => 273 + leapDay
    case November => 304 + leapDay
    case December => 334 + leapDay
  }

  /** Consecutive days since 0000-01-01 (day 0). */
  function DayNumber(d: Date): int
  {
    DaysBeforeYear(d.year) + DaysBeforeMonth(d.month, IsLeapYear(d.year)) + d.day - 1
  }

  /** LocalDate.getDayOfWeek().getValue(): 1 = Monday ... 7 = Sunday.
      Day 0, 0000-01-01 of the proleptic Gregorian calendar, is a Saturday. */
  function DayOfWeek(d: Date): (w: int)
    ensures 1 <= w <= 7
  {
    (DayNumber(d) + 5) % 7 + 1
  }

  /** The month table is the running sum of the month lengths. */
  lemma DaysBeforeMonthAccumulates(m: Month, leapYear: bool)
    ensures m != December ==>
      DaysBeforeMonth(m.Next(), leapYear) == DaysBeforeMonth(m, leapYear) + m.Length(leapYear)
    ensures DaysBeforeMonth(December, leapYear) + December.Length(leapYear) == if leapYear then 366 else 365
  {
  }

  /** A year has 366 days exactly when it is a leap year. */
  lemma {:induction false} YearLength(year: int)
    ensures DaysBeforeYear(year + 1) == DaysBeforeYear(year) + (if IsLeapYear(year) then 366 else 365)
  {
    FloorStep(year, 4);
    FloorStep(year, 100);
    FloorStep(year, 400);
    DivisibilityChain(year);
  }

  /** One more unit raises the floor quotient by one exactly when it completes a multiple. */
  lemma {:induction false} FloorStep(x: int, k: int)
    requires k == 4 || k == 100 || k == 400
    ensures (x + k) / k - (x + k - 1) / k == if x % k == 0 then 1 else 0
  {
    var q, r := x / k, x % k;
    assert x == k * q + r && 0 <= r < k;
    if r == 0 {
      assert x + k == k * (q + 1);
      assert (x + k) / k == q + 1;
      assert x + k - 1 == k * q + (k - 1);
      assert (x + k - 1) / k == q;
    } else {
      assert x + k == k * (q + 1) + r;
      assert (x + k) / k == q + 1;
      assert x + k - 1 == k * (q + 1) + (r - 1);
      assert (x + k - 1) / k == q + 1;
    }
  }

  /** Multiples of 400 are multiples of 100, and those are multiples of 4. */
  lemma DivisibilityChain(x: int)
    ensures x % 400 == 0 ==> x % 100 == 0
    ensures x % 100 == 0 ==> x % 4 == 0
  {
    if x % 400 == 0 {
      MultipleOf(x / 400 * 4, 100);
    }
    if x % 100 == 0 {
      MultipleOf(x / 100 * 25, 4);
    }
  }

  /** A multiple of a divisor leaves no remainder. */
  lemma {:induction false} MultipleOf(m: int, k: int)
    requires k == 4 || k == 100
    ensures (k * m) % k == 0
  {
    var x := k * m;
    var q, r := x / k, x % k;
    assert x == k * q + r && 0 <= r < k;
    assert r == k * (m - q);
  }

  /** The remainder modulo seven of a successor. */
  lemma {:induction false} SuccessorModSeven(n: int)
    ensures (n + 1) % 7 == if n % 7 == 6 then 0 else n % 7 + 1
  {
    var q, r := n / 7, n % 7;
    assert n == 7 * q + r;
    if r == 6 {
      assert n + 1 == 7 * (q + 1);
    } else {
      assert n + 1 == 7 * q + (r + 1);
    }
  }

  /** NextDay is one day later on the day count. */
  lemma NextDayNumber(d: Date)
    requires ValidDate(d)
    ensures DayNumber(NextDay(d)) == DayNumber(d) + 1
  {
    var leap := IsLeapYear(d.year);
    if d.day < d.month.Length(leap) {
    } else if d.month == December {
      YearLength(d.year);
      DaysBeforeMonthAccumulates(December, leap);
    } else {
      DaysBeforeMonthAccumulates(d.month, leap);
    }
  }

  /** NextDay is one day later, so the day of the week advances by one, Sunday wrapping to Monday. */
  lemma NextDayAdvancesWeekday(d: Date)
    requires ValidDate(d)
    ensures DayNumber(NextDay(d)) == DayNumber(d) + 1
    ensures DayOfWeek(NextDay(d)) == DayOfWeek(d) % 7 + 1
  {
    NextDayNumber(d);
    SuccessorModSeven(DayNumber(d) + 5);
  }

  /** The anchor: 1970-01-01, the Java epoch day, was a Thursday; 2020-01-01 a Wednesday. */
  lemma KnownWeekdays()
    ensures DayNumber(Date(1970, January, 1)) == 719528
    ensures DayOfWeek(Date(1970, January, 1)) == 4
    ensures DayOfWeek(Date(2020, January, 1)) == 3
    ensures DayOfWeek(Date(2020, February, 29)) == 6
  {
  }

  /** java.time.YearMonth. */
  datatype YearMonth = YearMonth(year: int, month: Month)
  {
    /** YearMonth.isBefore: earlier year, or same year and earlier month. */
    predicate IsBefore(other: YearMonth)
    {
      year < other.year || (year == other.year && month.Value() < other.month.Value())
    }

    /** YearMonth.isAfter. */
    predicate IsAfter(other: YearMonth)
    {
      year > other.year || (year == other.year && month.Value() > other.month.Value())
    }

    /** Months counted on one line, for comparison. */
    function Index(): int
    {
      12 * year + month.Value() - 1
    }
  }

  function YearMonthOf(t: DateTime): YearMonth
  {
    YearMonth(t.date.year, t.date.month)
  }

  /** The lexicographic (year, month) comparison is the order of months on one line. */
  lemma YearMonthOrder(a: YearMonth, b: YearMonth)
    ensures a.IsBefore(b) <==> a.Index() < b.Index()
    ensures a.IsAfter(b) <==> a.Index() > b.Index()
    ensures !a.IsBefore(b) && !a.IsAfter(b) <==> a == b
  {
    MonthValueRoundTrip(a.month);
    MonthValueRoundTrip(b.month);
  }
}
