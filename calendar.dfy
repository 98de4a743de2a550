/** The calendar both planners walk: dates are ordinal day numbers of the
    proleptic Gregorian calendar, so that comparing, stepping and telling
    the weekday are integer operations that stay valid across month and year
    boundaries. */
module Calendar {
  import opened Seqs

  /** Day 1 is 0001-01-01; consecutive days have consecutive numbers. */
  type Date = int

  /** Weekday numbers as JavaScript's `getDay()` and dayjs's `day()` give them. */
  const Sunday := 0
  const Monday := 1
  const Tuesday := 2
  const Friday := 5

  /** 0001-01-01 was a Monday, so the remainder modulo 7 is the weekday. */
  function DayOfWeek(d: Date): (w: int)
    ensures Sunday <= w < 7
  {
    d % 7
  }

  predicate IsWeekday(d: Date) {
    Monday <= DayOfWeek(d) <= Friday
  }

  predicate IsLeapYear(y: int) {
    y % 4 == 0 && (y % 100 != 0 || y % 400 == 0)
  }

  /** `new Date(year, month, 0).getDate()`: the length of month `m` (1-based). */
  function DaysInMonth(y: int, m: int): (n: int)
    requires 1 <= m <= 12
    ensures 28 <= n <= 31
    ensures n == 29 <==> m == 2 && IsLeapYear(y)
  {
    if m == 2 then (if IsLeapYear(y) then 29 else 28)
    else if m == 4 || m == 6 || m == 9 || m == 11 then 30
    else 31
  }

  /** The number of days in the years before year `y`. */
  function DaysBeforeYear(y: int): int {
    var p := y - 1;
    365 * p + p / 4 - p / 100 + p / 400
  }

  /** The number of days in year `y` before month `m`. */
  function DaysBeforeMonth(y: int, m: int): nat
    requires 1 <= m <= 12
  {
    if m == 1 then 0 else DaysBeforeMonth(y, m - 1) + DaysInMonth(y, m - 1)
  }

  /** The date of day `day` of month `m` of year `y`. */
  function DateOf(y: int, m: int, day: int): Date
    requires 1 <= m <= 12
  {
    DaysBeforeYear(y) + DaysBeforeMonth(y, m) + day
  }

  /** Stepping `y - 1` to `y` raises the quotient by `n` exactly when `n`
      divides `y`, for the three divisors of the leap-year rule. */
  lemma QuotientStep(y: int, n: int)
    requires n == 4 || n == 100 || n == 400
    ensures y / n - (y - 1) / n == if y % n == 0 then 1 else 0
  {
    if n == 4 {
      assert y / 4 - (y - 1) / 4 == if y % 4 == 0 then 1 else 0;
    } else if n == 100 {
      assert y / 100 - (y - 1) / 100 == if y % 100 == 0 then 1 else 0;
    } else {
      assert y / 400 - (y - 1) / 400 == if y % 400 == 0 then 1 else 0;
    }
  }

  /** A multiple of `a * b` is a multiple of `a`, here for `a` and `b` of
      the leap-year rule. */
  lemma MultipleOf(y: int, a: int, b: int)
    requires (a == 100 && b == 4) || (a == 4 && b == 25)
    requires y % (a * b) == 0
    ensures y % a == 0
  {
    if a == 100 {
      var k := y / 400;
      assert y == 400 * k;
      assert y == 100 * (4 * k);
    } else {
      var k := y / 100;
      assert y == 100 * k;
      assert y == 4 * (25 * k);
    }
  }

  lemma YearLength(y: int)
    ensures DaysBeforeYear(y + 1) - DaysBeforeYear(y) == if IsLeapYear(y) then 366 else 365
  {
    QuotientStep(y, 4);
    QuotientStep(y, 100);
    QuotientStep(y, 400);
    if y % 400 == 0 {
      MultipleOf(y, 100, 4);
    }
    if y % 100 == 0 {
      MultipleOf(y, 4, 25);
    }
  }

  /** The day after the last day of a month is the first day of the next
      month, so the months of the calendar tile the number line. */
  lemma MonthsAreContiguous(y: int, m: int)
    requires 1 <= m <= 12
    ensures DateOf(y, m, DaysInMonth(y, m)) + 1 == if m == 12 then DateOf(y + 1, 1, 1) else DateOf(y, m + 1, 1)
  {
    if m == 12 {
      YearLength(y);
      assert DaysBeforeMonth(y, 2) == 31;
      assert DaysBeforeMonth(y, 3) == 59 + (if IsLeapYear(y) then 1 else 0);
      assert DaysBeforeMonth(y, 4) == 90 + (if IsLeapYear(y) then 1 else 0);
      assert DaysBeforeMonth(y, 5) == 120 + (if IsLeapYear(y) then 1 else 0);
      assert DaysBeforeMonth(y, 6) == 151 + (if IsLeapYear(y) then 1 else 0);
      assert DaysBeforeMonth(y, 7) == 181 + (if IsLeapYear(y) then 1 else 0);
      assert DaysBeforeMonth(y, 8) == 212 + (if IsLeapYear(y) then 1 else 0);
      assert DaysBeforeMonth(y, 9) == 243 + (if IsLeapYear(y) then 1 else 0);
      assert DaysBeforeMonth(y, 10) == 273 + (if IsLeapYear(y) then 1 else 0);
      assert DaysBeforeMonth(y, 11) == 304 + (if IsLeapYear(y) then 1 else 0);
      assert DaysBeforeMonth(y, 12) == 334 + (if IsLeapYear(y) then 1 else 0);
    }
  }

  /** The Monday that begins the ISO week of `d`. */
  function WeekStart(d: Date): (s: Date)
    ensures DayOfWeek(s) == Monday
    ensures s <= d < s + 7
  {
    d - (DayOfWeek(d) + 6) % 7
  }

  /** Two weekdays of one ISO week are ordered as their weekday numbers. */
  lemma SameWeekWeekdays(d1: Date, d2: Date)
    requires IsWeekday(d1) && IsWeekday(d2) && WeekStart(d1) == WeekStart(d2)
    ensures d1 - d2 == DayOfWeek(d1) - DayOfWeek(d2)
  {
  }

  predicate IsWorkday(d: Date, holidays: seq<Date>) {
    IsWeekday(d) && d !in holidays
  }

  /** The workdays among days 1..k of month `m` of year `y`, ascending. */
  function Workdays(y: int, m: int, holidays: seq<Date>, k: nat): seq<Date>
    requires 1 <= m <= 12
  {
    if k == 0 then []
    else
      var d := DateOf(y, m, k);
      Workdays(y, m, holidays, k - 1) + (if IsWorkday(d, holidays) then [d] else [])
  }

  /** Every workday of the month, ascending. */
  function MonthWorkdays(y: int, m: int, holidays: seq<Date>): seq<Date>
    requires 1 <= m <= 12
  {
    Workdays(y, m, holidays, DaysInMonth(y, m))
  }

  predicate InMonth(y: int, m: int, d: Date)
    requires 1 <= m <= 12
  {
    DateOf(y, m, 1) <= d <= DateOf(y, m, DaysInMonth(y, m))
  }

  lemma {:induction false} WorkdaysExact(y: int, m: int, holidays: seq<Date>, k: nat)
    requires 1 <= m <= 12
    ensures forall d :: d in Workdays(y, m, holidays, k) <==>
      DateOf(y, m, 1) <= d <= DateOf(y, m, k) && IsWorkday(d, holidays)
    ensures StrictlyIncreasing(Workdays(y, m, holidays, k))
  {
    if k > 0 {
      WorkdaysExact(y, m, holidays, k - 1);
      var prev := Workdays(y, m, holidays, k - 1);
      var w := Workdays(y, m, holidays, k);
      var last := DateOf(y, m, k);
      assert DateOf(y, m, k - 1) == last - 1;
      assert w == prev + (if IsWorkday(last, holidays) then [last] else []);
      assert forall d :: d in prev ==> d < last;
      forall i, j | 0 <= i < j < |w| ensures w[i] < w[j] {
        if j < |prev| {
          assert w[i] == prev[i] && w[j] == prev[j];
        } else {
          assert w[i] == prev[i] && w[j] == last;
          assert prev[i] in prev;
        }
      }
    }
  }

  /** The workdays of a month are exactly its Monday–Friday days outside
      `holidays`, in strictly ascending order. */
  lemma MonthWorkdaysExact(y: int, m: int, holidays: seq<Date>)
    requires 1 <= m <= 12
    ensures forall d :: d in MonthWorkdays(y, m, holidays) <==> InMonth(y, m, d) && IsWorkday(d, holidays)
    ensures StrictlyIncreasing(MonthWorkdays(y, m, holidays))
  {
    WorkdaysExact(y, m, holidays, DaysInMonth(y, m));
  }

  /** The month the scheduler's default view opens on, September 2025,
      starts on a Monday. */
  lemma September2025StartsOnMonday()
    ensures DayOfWeek(DateOf(2025, 9, 1)) == Monday
  {
  }
}
