/** From a 2027 timestamp to its month: the boundary scan of the baselines, and the three
    lookups the optimized analyzers replace it with. */
module Months {
  import opened ReferenceFold

  const YEAR_START := 1798761600
  const YEAR_END := 1830297600

  const MONTH_START: seq<nat> := [
    1798761600, 1801440000, 1803859200, 1806537600, 1809129600, 1811808000, 1814400000,
    1817078400, 1819756800, 1822348800, 1825027200, 1827619200, 1830297600]

  predicate InYear(timestamp: nat) { YEAR_START <= timestamp < YEAR_END }

  predicate InMonth(timestamp: nat, month: nat) {
    month < MONTHS && MONTH_START[month] <= timestamp < MONTH_START[month + 1]
  }

  /** Months 0..n-1 scanned downwards, as month_label_from_unix_timestamp does. */
  function Scan(timestamp: nat, n: nat): Option<nat>
    requires n <= MONTHS
  {
    if n == 0 then None else if InMonth(timestamp, n - 1) then Some(n - 1) else Scan(timestamp, n - 1)
  }

  function MonthOf(timestamp: nat): Option<nat> { Scan(timestamp, MONTHS) }

  lemma {:induction false} StartsIncrease(i: nat, j: nat)
    requires i < j <= MONTHS
    ensures MONTH_START[i] < MONTH_START[j]
    decreases j - i
  {
  }

  lemma {:induction false} ScanFinds(timestamp: nat, month: nat, n: nat)
    requires InMonth(timestamp, month) && month < n <= MONTHS
    ensures Scan(timestamp, n) == Some(month)
  {
    if month < n - 1 {
      StartsIncrease(month, n - 1);
      if month + 1 < n - 1 {
        StartsIncrease(month + 1, n - 1);
      }
      ScanFinds(timestamp, month, n - 1);
    }
  }

  lemma {:induction false} YearIsCovered(timestamp: nat, n: nat) returns (month: nat)
    requires n <= MONTHS && MONTH_START[0] <= timestamp < MONTH_START[n]
    ensures month < n && InMonth(timestamp, month)
  {
    if MONTH_START[n - 1] <= timestamp {
      month := n - 1;
    } else {
      month := YearIsCovered(timestamp, n - 1);
    }
  }

  /** The scan answers exactly for 2027, with the month whose bounds enclose the timestamp. */
  lemma MonthOfMeaning(timestamp: nat)
    ensures MonthOf(timestamp).Some? <==> InYear(timestamp)
    ensures MonthOf(timestamp).Some? ==> InMonth(timestamp, MonthOf(timestamp).value)
  {
    if InYear(timestamp) {
      var month := YearIsCovered(timestamp, MONTHS);
      ScanFinds(timestamp, month, MONTHS);
    } else {
      ScanMisses(timestamp, MONTHS);
    }
  }

  lemma {:induction false} ScanMisses(timestamp: nat, n: nat)
    requires n <= MONTHS && !InYear(timestamp)
    ensures Scan(timestamp, n).None?
  {
    if n > 0 {
      if n - 1 > 0 {
        StartsIncrease(0, n - 1);
      }
      if n < MONTHS {
        StartsIncrease(n, MONTHS);
      }
      ScanMisses(timestamp, n - 1);
    }
  }

  // ---- The calendar ------------------------------------------------------------------

  predicate IsLeap(year: nat) { year % 4 == 0 && (year % 100 != 0 || year % 400 == 0) }

  /** Days of the months 0..11. */
  function DaysInMonth(year: nat, month: nat): nat
    requires month < MONTHS
  {
    if month == 1 then if IsLeap(year) then 29 else 28
    else if month == 3 || month == 5 || month == 8 || month == 10 then 30 else 31
  }

  /** Days of a year before its month `month`; all of them for 12. */
  function DaysToMonth(year: nat, month: nat): nat
    requires month <= MONTHS
  {
    if month == 0 then 0 else DaysToMonth(year, month - 1) + DaysInMonth(year, month - 1)
  }

  /** Leap years from 1970 to before a year. */
  function LeapYears(year: nat): nat {
    if year <= 1970 then 0 else LeapYears(year - 1) + if IsLeap(year - 1) then 1 else 0
  }

  /** Days from 1 January 1970 to 1 January of a year. */
  function DaysToYear(year: nat): nat
    requires year >= 1970
  {
    365 * (year - 1970) + LeapYears(year)
  }

  /** Days of a common year before each month. */
  const COMMON_YEAR: seq<nat> := [0, 31, 59, 90, 120, 151, 181, 212, 243, 273, 304, 334, 365]

  lemma {:induction false} DaysAreCommon(year: nat, month: nat)
    requires month <= MONTHS
    ensures DaysToMonth(year, month) == COMMON_YEAR[month] + if IsLeap(year) && month >= 2 then 1 else 0
  {
    if month > 0 {
      DaysAreCommon(year, month - 1);
      CommonMonth(year, month - 1);
    }
  }

  lemma CommonMonth(year: nat, month: nat)
    requires month < MONTHS
    ensures COMMON_YEAR[month + 1] - COMMON_YEAR[month] + (if IsLeap(year) && month == 1 then 1 else 0) ==
            DaysInMonth(year, month)
  {
  }

  lemma DaysOfYear(year: nat)
    ensures DaysToMonth(year, MONTHS) == if IsLeap(year) then 366 else 365
  {
    DaysAreCommon(year, MONTHS);
  }

  /** Of those years every fourth was a leap year. */
  lemma EveryFourth(year: nat)
    requires 1970 <= year < 2028
    ensures IsLeap(year) <==> year % 4 == 0
  {
    assert year % 100 == 0 ==> year == 2000;
  }

  lemma {:induction false} LeapYearsUntil(year: nat)
    requires 1970 <= year < 2028
    ensures LeapYears(year) == (year - 1969) / 4
  {
    if year > 1970 {
      LeapYearsUntil(year - 1);
      EveryFourth(year - 1);
    }
  }

  /** The year of the contest. */
  const YEAR: nat := 2027

  lemma DaysToContest()
    ensures DaysToYear(YEAR) == 20819 && !IsLeap(YEAR)
  {
    LeapYearsUntil(YEAR);
  }

  lemma BoundaryOfDays(month: nat)
    requires month <= MONTHS
    ensures MONTH_START[month] == 86400 * (20819 + COMMON_YEAR[month])
  {
  }

  /** The table of boundaries is the calendar of 2027 in seconds since 1970. */
  lemma BoundariesAreCalendar(month: nat)
    requires month <= MONTHS
    ensures MONTH_START[month] == 86400 * (DaysToYear(YEAR) + DaysToMonth(YEAR, month))
  {
    DaysToContest();
    DaysAreCommon(YEAR, month);
    BoundaryOfDays(month);
  }

  /** A timestamp is in the month that has its day, and has one exactly in 2027. */
  lemma MonthIsCalendar(timestamp: nat, month: nat)
    requires month < MONTHS
    ensures MonthOf(timestamp) == Some(month) <==>
            DaysToMonth(YEAR, month) <= timestamp / 86400 - DaysToYear(YEAR) < DaysToMonth(YEAR, month + 1)
    ensures MonthOf(timestamp).Some? <==> 0 <= timestamp / 86400 - DaysToYear(YEAR) < DaysToMonth(YEAR, MONTHS)
  {
    BoundariesAreCalendar(month);
    BoundariesAreCalendar(month + 1);
    ScanIsMonth(timestamp, month);
    DayWithin(timestamp, DaysToYear(YEAR) + DaysToMonth(YEAR, month), DaysToYear(YEAR) + DaysToMonth(YEAR, month + 1));
    YearIsCalendar(timestamp);
  }

  lemma ScanIsMonth(timestamp: nat, month: nat)
    requires month < MONTHS
    ensures MonthOf(timestamp) == Some(month) <==> InMonth(timestamp, month)
  {
    MonthOfMeaning(timestamp);
    if InMonth(timestamp, month) {
      ScanFinds(timestamp, month, MONTHS);
    }
  }

  lemma YearIsCalendar(timestamp: nat)
    ensures MonthOf(timestamp).Some? <==> 0 <= timestamp / 86400 - DaysToYear(YEAR) < DaysToMonth(YEAR, MONTHS)
  {
    MonthOfMeaning(timestamp);
    DaysToContest();
    DaysOfYear(YEAR);
    DayWithin(timestamp, 20819, 21184);
  }

  lemma DayWithin(timestamp: nat, from: nat, to: nat)
    ensures 86400 * from <= timestamp < 86400 * to <==> from <= timestamp / 86400 < to
  {
  }

  // ---- Tables over equal periods -----------------------------------------------------

  /** No month boundary falls inside a period of `unit` seconds counted from New Year. */
  predicate Aligned(unit: nat)
    requires unit > 0
  {
    forall i :: 0 <= i <= MONTHS ==> (MONTH_START[i] - YEAR_START) % unit == 0
  }

  /** All seconds of one aligned period lie in the month of its first second. */
  lemma PeriodHasOneMonth(unit: nat, period: nat, timestamp: nat)
    requires unit > 0 && Aligned(unit) && InYear(timestamp)
    requires period == (timestamp - YEAR_START) / unit
    ensures InYear(YEAR_START + period * unit)
    ensures MonthOf(YEAR_START + period * unit) == MonthOf(timestamp)
  {
    var first := YEAR_START + period * unit;
    FloorBounds(timestamp - YEAR_START, unit);
    assert first <= timestamp < first + unit;
    MonthOfMeaning(timestamp);
    var month := MonthOf(timestamp).value;
    StartsAtOrAfter(month);
    assert (MONTH_START[month] - YEAR_START) % unit == 0;
    var k := (MONTH_START[month] - YEAR_START) / unit;
    assert MONTH_START[month] - YEAR_START == k * unit by { FloorBounds(MONTH_START[month] - YEAR_START, unit); }
    if period < k {
      MulStrict(period, k, unit);
    }
    if period > k {
      MulStrict(k, period, unit);
    }
    assert MONTH_START[month] <= first;
    ScanFinds(first, month, MONTHS);
  }

  lemma StartsAtOrAfter(month: nat)
    requires month <= MONTHS
    ensures MONTH_START[month] >= YEAR_START
  {
  }

  lemma FloorBounds(x: nat, unit: nat)
    requires unit > 0
    ensures (x / unit) * unit == x - x % unit && 0 <= x % unit < unit
  {
  }

  lemma {:induction false} MulStrict(a: nat, b: nat, unit: nat)
    requires a < b
    ensures a * unit + unit <= b * unit
  {
    assert b * unit == (b - 1) * unit + unit;
    if a < b - 1 {
      MulStrict(a, b - 1, unit);
    }
  }

  lemma AlignedPeriods()
    ensures Aligned(3200) && Aligned(86400)
  {
  }

  // ---- The C analyzer: periods of 32 hundred-second units ----------------------------

  const PERIODS := (315360 + 31) / 32

  /** Fills month_by_period by stepping over the year once. */
  method FillMonthByPeriod() returns (monthByPeriod: array<nat>)
    ensures fresh(monthByPeriod) && monthByPeriod.Length == PERIODS
    ensures forall j :: 0 <= j < PERIODS ==> MonthOf(YEAR_START + 3200 * j) == Some(monthByPeriod[j])
  {
    monthByPeriod := new nat[PERIODS];
    var period, m := 0, 0;
    assert InMonth(YEAR_START, 0);
    while period < 315360
      invariant 0 <= period <= 315360 && period % 32 == 0 && m < MONTHS
      invariant period < 315360 ==>
                  MONTH_START[m] <= YEAR_START + period * 100 <= MONTH_START[m + 1]
      invariant forall j :: 0 <= j < period / 32 ==> MonthOf(YEAR_START + 3200 * j) == Some(monthByPeriod[j])
    {
      var ts := YEAR_START + period * 100;
      if ts >= MONTH_START[m + 1] {
        StartsIncrease(m + 1, MONTHS);
        m := m + 1;
        StartsIncrease(m, m + 1);
      }
      ScanFinds(ts, m, MONTHS);
      monthByPeriod[period / 32] := m;
      NextPeriod(period, m);
      period := period + 32;
    }
  }

  /** The next period starts no later than the end of the current month. */
  lemma NextPeriod(period: nat, month: nat)
    requires period % 32 == 0 && month < MONTHS && InMonth(YEAR_START + period * 100, month)
    ensures YEAR_START + (period + 32) * 100 <= MONTH_START[month + 1]
  {
  }

  ghost predicate PeriodTable(table: seq<nat>) {
    |table| == PERIODS && forall j :: 0 <= j < PERIODS ==> MonthOf(YEAR_START + 3200 * j) == Some(table[j])
  }

  lemma DeltaPeriod(timestamp: nat)
    requires InYear(timestamp)
    ensures (timestamp / 100 - YEAR_START / 100) / 32 == (timestamp - YEAR_START) / 3200
    ensures 0 <= (timestamp - YEAR_START) / 3200 < PERIODS
  {
  }

  /** The period table answers like the scan for every second of the year, although it sees
      only the first eight of the ten digits. */
  lemma PeriodLookup(table: seq<nat>, timestamp: nat)
    requires PeriodTable(table) && InYear(timestamp)
    ensures 0 <= (timestamp / 100 - YEAR_START / 100) / 32 < PERIODS
    ensures MonthOf(timestamp) == Some(table[(timestamp / 100 - YEAR_START / 100) / 32])
  {
    var j := (timestamp / 100 - YEAR_START / 100) / 32;
    DeltaPeriod(timestamp);
    AlignedPeriods();
    PeriodHasOneMonth(3200, j, timestamp);
  }

  // ---- Day tables --------------------------------------------------------------------

  ghost predicate DayTable(table: seq<nat>) {
    |table| == 365 && forall day :: 0 <= day < 365 ==> MonthOf(YEAR_START + 86400 * day) == Some(table[day])
  }

  /** The Go analyzer's table of days. */
  method FillMonthByDay() returns (monthByDay: array<nat>)
    ensures fresh(monthByDay) && DayTable(monthByDay[..])
  {
    monthByDay := new nat[365];
    var month := 0;
    assert InMonth(YEAR_START, 0);
    for day := 0 to 365
      invariant month < MONTHS
      invariant day < 365 ==> MONTH_START[month] <= YEAR_START + day * 86400 <= MONTH_START[month + 1]
      invariant forall d :: 0 <= d < day ==> MonthOf(YEAR_START + 86400 * d) == Some(monthByDay[d])
    {
      var timestamp := YEAR_START + day * 86400;
      if timestamp >= MONTH_START[month + 1] {
        StartsIncrease(month + 1, MONTHS);
        month := month + 1;
        StartsIncrease(month, month + 1);
      }
      ScanFinds(timestamp, month, MONTHS);
      monthByDay[day] := month;
      NextDay(day, month);
    }
  }

  lemma NextDay(day: nat, month: nat)
    requires month < MONTHS && InMonth(YEAR_START + day * 86400, month)
    ensures YEAR_START + (day + 1) * 86400 <= MONTH_START[month + 1]
  {
  }

  lemma DayLookup(table: seq<nat>, timestamp: nat)
    requires DayTable(table) && InYear(timestamp)
    ensures 0 <= (timestamp - YEAR_START) / 86400 < 365
    ensures MonthOf(timestamp) == Some(table[(timestamp - YEAR_START) / 86400])
  {
    AlignedPeriods();
    PeriodHasOneMonth(86400, (timestamp - YEAR_START) / 86400, timestamp);
  }

  /** The C++ analyzer's multiply and shift is an exact division by 864 on the whole year. */
  lemma MultiplyShiftDay(delta: nat)
    requires delta < 315360
    ensures (delta * 155345) / 0x800_0000 == delta / 864
  {
  }

  lemma DeltaDay(timestamp: nat)
    requires InYear(timestamp)
    ensures var delta := timestamp / 100 - YEAR_START / 100;
            0 <= delta < 315360 && delta / 864 == (timestamp - YEAR_START) / 86400
  {
  }

  /** So its day table also answers like the scan. */
  lemma MultiplyShiftLookup(table: seq<nat>, timestamp: nat)
    requires DayTable(table) && InYear(timestamp)
    ensures var day := ((timestamp / 100 - YEAR_START / 100) * 155345) / 0x800_0000;
            0 <= day < 365 && MonthOf(timestamp) == Some(table[day])
  {
    var delta := timestamp / 100 - YEAR_START / 100;
    DeltaDay(timestamp);
    MultiplyShiftDay(delta);
    DayLookup(table, timestamp);
  }
}
