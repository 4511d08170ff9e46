/**
 * Local calendar dates as the month view uses them: a year, a month (1..12)
 * and a day of the month, with the proleptic Gregorian leap-year rule that
 * JavaScript's `Date` applies. Time of day and time zones are not modelled:
 * every date stands for local midnight.
 */
module Calendar {

  datatype Date = Date(year: int, month: int, day: int)

  predicate IsLeap(y: int) {
    (y % 4 == 0 && y % 100 != 0) || y % 400 == 0
  }

  /** Number of days of month `m` of year `y` (what `new Date(y, m, 0).getDate()` yields). */
  function DaysInMonth(y: int, m: int): (n: int)
    requires 1 <= m <= 12
    ensures 28 <= n <= 31
    ensures m == 2 ==> (n == 29 <==> IsLeap(y))
  {
    if m == 2 then (if IsLeap(y) then 29 else 28)
    else if m == 4 || m == 6 || m == 9 || m == 11 then 30
    else 31
  }

  predicate Valid(d: Date) {
    1 <= d.month <= 12 && 1 <= d.day <= DaysInMonth(d.year, d.month)
  }

  /**
   * A number that orders valid dates chronologically, standing for the
   * midnight timestamp that the source compares (`getTime()`, `<=` on dates).
   */
  function Stamp(d: Date): int {
    d.year * 416 + d.month * 32 + d.day
  }

  /** Strict chronological order. */
  predicate Before(a: Date, b: Date) {
    Stamp(a) < Stamp(b)
  }

  /** Chronological order, `a <= b` on the dates' midnights. */
  predicate OnOrBefore(a: Date, b: Date) {
    Stamp(a) <= Stamp(b)
  }

  /** On valid dates the stamp order is the calendar (year, month, day) order, and equal stamps mean equal dates. */
  lemma StampIsChronological(a: Date, b: Date)
    requires Valid(a) && Valid(b)
    ensures Before(a, b) <==>
              a.year < b.year ||
              (a.year == b.year && (a.month < b.month || (a.month == b.month && a.day < b.day)))
    ensures Stamp(a) == Stamp(b) <==> a == b
  {
  }

  /** Months elapsed since month 1 of year 0. */
  function MonthIndex(d: Date): int {
    d.year * 12 + d.month - 1
  }

  /** A valid date of an earlier month is before every valid date of a later month. */
  lemma MonthIndexOrder(a: Date, b: Date)
    requires Valid(a) && Valid(b) && MonthIndex(a) < MonthIndex(b)
    ensures Before(a, b)
  {
    if a.year == b.year {
      assert a.month < b.month;
    } else {
      assert a.year < b.year;
    }
  }

  function FirstOfMonth(y: int, m: int): (d: Date)
    requires 1 <= m <= 12
    ensures Valid(d) && d.year == y && d.month == m
    ensures forall e :: Valid(e) && e.year == y && e.month == m ==> OnOrBefore(d, e)
  {
    Date(y, m, 1)
  }

  function LastOfMonth(y: int, m: int): (d: Date)
    requires 1 <= m <= 12
    ensures Valid(d) && d.year == y && d.month == m
    ensures forall e :: Valid(e) && e.year == y && e.month == m ==> OnOrBefore(e, d)
  {
    Date(y, m, DaysInMonth(y, m))
  }

  /** A valid date lies between the first and the last day of month (y, m) exactly when it is in that month. */
  lemma InMonthWindow(d: Date, y: int, m: int)
    requires Valid(d) && 1 <= m <= 12
    ensures OnOrBefore(FirstOfMonth(y, m), d) && OnOrBefore(d, LastOfMonth(y, m))
            <==> d.year == y && d.month == m
  {
  }

  /**
   * The following calendar day: what `setDate(getDate() + 1)` normalises to.
   * It is the immediate successor: no valid date lies strictly between.
   */
  function NextDay(d: Date): (n: Date)
    requires Valid(d)
    ensures Valid(n) && Before(d, n)
  {
    if d.day < DaysInMonth(d.year, d.month) then Date(d.year, d.month, d.day + 1)
    else if d.month < 12 then Date(d.year, d.month + 1, 1)
    else Date(d.year + 1, 1, 1)
  }

  /** No valid date lies strictly between a date and the next day. */
  lemma NextDayIsImmediate(d: Date, e: Date)
    requires Valid(d) && Valid(e) && Before(d, e)
    ensures OnOrBefore(NextDay(d), e)
  {
    if e.year == d.year && e.month == d.month {
      assert d.day < e.day;
    } else if e.year == d.year {
      assert d.month < e.month;
    } else {
      assert d.year < e.year;
    }
  }

  /** The date `n` calendar days after `d`: `setDate(getDate() + n)`. */
  function AddDays(d: Date, n: nat): (r: Date)
    requires Valid(d)
    ensures Valid(r)
    ensures n == 0 ==> r == d
    ensures n > 0 ==> Before(d, r)
    decreases n
  {
    if n == 0 then d else AddDays(NextDay(d), n - 1)
  }

  lemma {:induction false} AddDaysAdd(d: Date, a: nat, b: nat)
    requires Valid(d)
    ensures AddDays(AddDays(d, a), b) == AddDays(d, a + b)
    decreases a
  {
    if a > 0 {
      AddDaysAdd(NextDay(d), a - 1, b);
    }
  }

  /** Adding days that stay inside the month only moves the day of the month. */
  lemma {:induction false} AddDaysWithinMonth(d: Date, n: nat)
    requires Valid(d) && d.day + n <= DaysInMonth(d.year, d.month)
    ensures AddDays(d, n) == Date(d.year, d.month, d.day + n)
    decreases n
  {
    if n > 0 {
      AddDaysWithinMonth(NextDay(d), n - 1);
    }
  }

  /** Adding more days than remain in the month lands after the month's last day. */
  lemma AddDaysLeavesMonth(d: Date, n: nat)
    requires Valid(d) && DaysInMonth(d.year, d.month) < d.day + n
    ensures Before(Date(d.year, d.month, DaysInMonth(d.year, d.month)), AddDays(d, n))
  {
    var rem := DaysInMonth(d.year, d.month) - d.day;
    var monthEnd := Date(d.year, d.month, DaysInMonth(d.year, d.month));
    AddDaysWithinMonth(d, rem);
    assert AddDays(d, rem) == monthEnd;
    AddDaysAdd(d, rem, n - rem);
    assert AddDays(monthEnd, n - rem) == AddDays(d, n);
  }

  /**
   * The first day of the calendar month after `d`'s, then the day clamped to
   * that month's length: `new Date(y, m + 1, 1)` followed by
   * `new Date(y', m', Math.min(anchorDay, daysIn(y', m')))`.
   */
  function NextMonthClamped(d: Date, anchorDay: int): (n: Date)
    requires Valid(d) && 1 <= anchorDay <= 31
    ensures Valid(n) && Before(d, n)
    ensures MonthIndex(n) == MonthIndex(d) + 1
    ensures n.day == Min(anchorDay, DaysInMonth(n.year, n.month))
  {
    var y := if d.month == 12 then d.year + 1 else d.year;
    var m := if d.month == 12 then 1 else d.month + 1;
    Date(y, m, Min(anchorDay, DaysInMonth(y, m)))
  }

  function Min(a: int, b: int): int {
    if a <= b then a else b
  }
}
