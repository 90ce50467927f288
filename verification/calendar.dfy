/** Calendar dates, their chronological order, weekdays and the Monday-to-Friday
    business-day calendar (no holidays) that pandas' `BDay` and `bdate_range` use. */
module Calendar {

  /** A proleptic Gregorian calendar date, as Python's `datetime.date`. */
  datatype Date = Date(year: int, month: int, day: int)

  predicate IsLeapYear(y: int)
  {
    y % 4 == 0 && (y % 100 != 0 || y % 400 == 0)
  }

  function DaysInMonth(y: int, m: int): (n: int)
    requires 1 <= m <= 12
    ensures 28 <= n <= 31
  {
    if m == 2 then (if IsLeapYear(y) then 29 else 28)
    else if m == 4 || m == 6 || m == 9 || m == 11 then 30
    else 31
  }

  /** A date that exists in the calendar; every parsed date is one. */
  predicate ValidDate(d: Date)
  {
    1 <= d.month <= 12 && 1 <= d.day <= DaysInMonth(d.year, d.month)
  }

  /** Chronological order of dates: Python compares dates field by field. */
  predicate Before(a: Date, b: Date)
  {
    a.year < b.year
    || (a.year == b.year && (a.month < b.month || (a.month == b.month && a.day < b.day)))
  }

  predicate NotAfter(a: Date, b: Date)
  {
    Before(a, b) || a == b
  }

  lemma BeforeIsStrictTotalOrder(a: Date, b: Date, c: Date)
    ensures !Before(a, a)
    ensures Before(a, b) ==> !Before(b, a)
    ensures Before(a, b) && Before(b, c) ==> Before(a, c)
    ensures a == b || Before(a, b) || Before(b, a)
  {
  }

  /** Days since 1970-01-01 (days-from-civil). Dafny's `/` and `%` by a positive
      constant are floor division and a non-negative remainder, as this formula needs. */
  function DayNumber(d: Date): int
  {
    var y := if d.month <= 2 then d.year - 1 else d.year;
    var era := y / 400;
    var yoe := y - era * 400;
    var mp := (d.month + 9) % 12;
    var doy := (153 * mp + 2) / 5 + d.day - 1;
    var doe := yoe * 365 + yoe / 4 - yoe / 100 + doy;
    era * 146097 + doe - 719468
  }

  /** Day of the week of a day number, 0 = Monday ... 6 = Sunday (1970-01-01 was a Thursday). */
  function WeekdayOf(n: int): (w: int)
    ensures 0 <= w < 7
  {
    (n + 3) % 7
  }

  predicate IsBusinessDayNumber(n: int)
  {
    WeekdayOf(n) < 5
  }

  /** Number of business days n with lo < n <= hi, counted one day at a time. */
  function CountBusinessDays(lo: int, hi: int): (c: nat)
    decreases hi - lo
  {
    if hi <= lo then 0
    else CountBusinessDays(lo, hi - 1) + (if IsBusinessDayNumber(hi) then 1 else 0)
  }

  /** The same count, stated directly as the size of a set of days. */
  ghost function BusinessDaySet(lo: int, hi: int): set<int>
  {
    set n | lo < n <= hi && IsBusinessDayNumber(n)
  }

  lemma {:induction false} CountIsSizeOfBusinessDaySet(lo: int, hi: int)
    ensures CountBusinessDays(lo, hi) == |BusinessDaySet(lo, hi)|
    decreases hi - lo
  {
    if hi <= lo {
      assert BusinessDaySet(lo, hi) == {};
    } else {
      CountIsSizeOfBusinessDaySet(lo, hi - 1);
      if IsBusinessDayNumber(hi) {
        assert BusinessDaySet(lo, hi) == BusinessDaySet(lo, hi - 1) + {hi};
        assert hi !in BusinessDaySet(lo, hi - 1);
      } else {
        assert BusinessDaySet(lo, hi) == BusinessDaySet(lo, hi - 1);
      }
    }
  }

  /** Later days never have fewer business days since a fixed start: a setup whose
      window has expired never becomes eligible again. */
  lemma {:induction false} CountIsMonotone(lo: int, hi: int, hi': int)
    requires hi <= hi'
    ensures CountBusinessDays(lo, hi) <= CountBusinessDays(lo, hi')
    decreases hi' - hi
  {
    if hi < hi' {
      CountIsMonotone(lo, hi, hi' - 1);
    }
  }

  /** Any seven consecutive days hold exactly five business days. */
  lemma {:induction false} WeekHasFiveBusinessDays(lo: int)
    ensures CountBusinessDays(lo, lo + 7) == 5
  {
    var w := WeekdayOf(lo);
    assert CountBusinessDays(lo, lo) == 0;
    CountNextDay(lo, 1);
    CountNextDay(lo, 2);
    CountNextDay(lo, 3);
    CountNextDay(lo, 4);
    CountNextDay(lo, 5);
    CountNextDay(lo, 6);
    CountNextDay(lo, 7);
    WeekOfWeekdays(w);
  }

  /** Counting one more day adds that day's weekday, `k` days after the start. */
  lemma CountNextDay(lo: int, k: int)
    requires 1 <= k
    ensures CountBusinessDays(lo, lo + k) == CountBusinessDays(lo, lo + k - 1) + WorkdayCount((WeekdayOf(lo) + k) % 7)
  {
  }

  function WorkdayCount(weekday: int): int
  {
    if weekday < 5 then 1 else 0
  }

  /** Starting on any weekday, the next seven days hold five Monday-to-Friday days. */
  lemma WeekOfWeekdays(w: int)
    requires 0 <= w < 7
    ensures WorkdayCount((w + 1) % 7) + WorkdayCount((w + 2) % 7) + WorkdayCount((w + 3) % 7)
      + WorkdayCount((w + 4) % 7) + WorkdayCount((w + 5) % 7) + WorkdayCount((w + 6) % 7)
      + WorkdayCount((w + 7) % 7) == 5
  {
    if w == 0 {
    } else if w == 1 {
    } else if w == 2 {
    } else if w == 3 {
    } else if w == 4 {
    } else if w == 5 {
    } else {
    }
  }

  /** Business days strictly after `observation` up to and including `current`:
      pandas' `len(bdate_range(observation + BDay(), current))`, 0 when the range is empty. */
  function BusinessDaysSince(observation: Date, current: Date): (n: nat)
    ensures n == |BusinessDaySet(DayNumber(observation), DayNumber(current))|
    ensures DayNumber(current) <= DayNumber(observation) ==> n == 0
  {
    CountIsSizeOfBusinessDaySet(DayNumber(observation), DayNumber(current));
    CountBusinessDays(DayNumber(observation), DayNumber(current))
  }

  const MonthNames: seq<string> :=
    ["January", "February", "March", "April", "May", "June", "July",
     "August", "September", "October", "November", "December"]

  /** English month name of a date (`strftime('%B')`, or the month-number map). */
  function MonthName(d: Date): (name: string)
    requires 1 <= d.month <= 12
    ensures name in MonthNames
  {
    MonthNames[d.month - 1]
  }

  lemma MonthNameIsInjective(a: Date, b: Date)
    requires 1 <= a.month <= 12 && 1 <= b.month <= 12
    ensures MonthName(a) == MonthName(b) <==> a.month == b.month
  {
  }
}
