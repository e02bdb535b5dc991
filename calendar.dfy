/**
 * Calendar dates (Python's datetime.date, proleptic Gregorian) with the
 * three operations the portal and the forms use: one day earlier or later,
 * adding whole days, and replace(day=1).
 */
module Calendar {

  datatype Date = Date(year: int, month: int, day: int)

  predicate IsLeap(y: int) { (y % 4 == 0 && y % 100 != 0) || y % 400 == 0 }

  function DaysInMonth(y: int, m: int): (n: int)
    requires 1 <= m <= 12
    ensures 28 <= n <= 31
  {
    if m == 2 then (if IsLeap(y) then 29 else 28)
    else if m == 4 || m == 6 || m == 9 || m == 11 then 30
    else 31
  }

  predicate Valid(d: Date) {
    1 <= d.month <= 12 && 1 <= d.day <= DaysInMonth(d.year, d.month)
  }

  /** Months counted from year 0: consecutive months have consecutive indices. */
  function MonthIndex(d: Date): int { d.year * 12 + (d.month - 1) }

  /** Strict chronological order (date < date). */
  predicate Before(a: Date, b: Date) {
    a.year < b.year || (a.year == b.year && (a.month < b.month || (a.month == b.month && a.day < b.day)))
  }

  /** date.replace(day=1). */
  function FirstOfMonth(d: Date): (r: Date)
    requires Valid(d)
    ensures Valid(r) && r.day == 1 && MonthIndex(r) == MonthIndex(d)
  {
    d.(day := 1)
  }

  /** The first day of the month after d's. */
  function NextMonthFirst(d: Date): (r: Date)
    requires Valid(d)
    ensures Valid(r) && r.day == 1 && MonthIndex(r) == MonthIndex(d) + 1
  {
    if d.month == 12 then Date(d.year + 1, 1, 1) else Date(d.year, d.month + 1, 1)
  }

  /** date + timedelta(days=1). */
  function NextDay(d: Date): (r: Date)
    requires Valid(d)
    ensures Valid(r) && Before(d, r)
  {
    if d.day < DaysInMonth(d.year, d.month) then d.(day := d.day + 1)
    else NextMonthFirst(d)
  }

  /** date - timedelta(days=1). */
  function PrevDay(d: Date): (r: Date)
    requires Valid(d)
    ensures Valid(r) && Before(r, d)
    ensures d.day == 1 ==> MonthIndex(r) == MonthIndex(d) - 1
    ensures d.day > 1 ==> r == d.(day := d.day - 1)
  {
    if d.day > 1 then d.(day := d.day - 1)
    else if d.month == 1 then Date(d.year - 1, 12, 31)
    else Date(d.year, d.month - 1, DaysInMonth(d.year, d.month - 1))
  }

  /** date + timedelta(days=n). */
  function AddDays(d: Date, n: nat): (r: Date)
    requires Valid(d)
    ensures Valid(r)
    decreases n
  {
    if n == 0 then d else AddDays(NextDay(d), n - 1)
  }

  lemma {:induction false} AddDaysWithinMonth(d: Date, n: nat)
    requires Valid(d) && d.day + n <= DaysInMonth(d.year, d.month)
    ensures AddDays(d, n) == d.(day := d.day + n)
    decreases n
  {
    if n > 0 {
      AddDaysWithinMonth(NextDay(d), n - 1);
    }
  }

  lemma {:induction false} AddDaysSplit(d: Date, a: nat, b: nat)
    requires Valid(d)
    ensures AddDays(d, a + b) == AddDays(AddDays(d, a), b)
    decreases a
  {
    if a > 0 {
      AddDaysSplit(NextDay(d), a - 1, b);
    }
  }

  lemma {:induction false} AddDaysNotBefore(d: Date, n: nat)
    requires Valid(d)
    ensures !Before(AddDays(d, n), d)
    ensures n > 0 ==> Before(d, AddDays(d, n))
    decreases n
  {
    if n > 0 {
      AddDaysNotBefore(NextDay(d), n - 1);
    }
  }

  /** Adding n + 1 days is adding n days and then one more. */
  lemma AddDaysStep(d: Date, n: nat)
    requires Valid(d)
    ensures AddDays(d, n + 1) == NextDay(AddDays(d, n))
  {
    AddDaysSplit(d, n, 1);
  }

  /** Adding a whole month's length to its first day reaches the next month's first day. */
  lemma AddMonthLength(d: Date)
    requires Valid(d) && d.day == 1
    ensures AddDays(d, DaysInMonth(d.year, d.month)) == NextMonthFirst(d)
  {
    var len := DaysInMonth(d.year, d.month);
    AddDaysWithinMonth(d, len - 1);
    AddDaysStep(d, len - 1);
  }

  /**
   * (first_of_month + timedelta(days=31)).replace(day=1) is the first day of
   * the following month, whatever the length of the month.
   */
  lemma ThirtyOneDaysLandInNextMonth(d: Date)
    requires Valid(d) && d.day == 1
    ensures FirstOfMonth(AddDays(d, 31)) == NextMonthFirst(d)
  {
    var len := DaysInMonth(d.year, d.month);
    var next := NextMonthFirst(d);
    AddDaysSplit(d, len, 31 - len);
    AddMonthLength(d);
    AddDaysWithinMonth(next, 31 - len);
  }

  lemma BeforeTransitive(a: Date, b: Date, c: Date)
    requires Before(a, b) && Before(b, c)
    ensures Before(a, c)
  {
  }

  /** A first-of-month date is determined by its month index. */
  lemma MonthIndexDeterminesFirst(a: Date, b: Date)
    requires Valid(a) && Valid(b) && a.day == 1 && b.day == 1
    requires MonthIndex(a) == MonthIndex(b)
    ensures a == b
  {
    assert a.year == MonthIndex(a) / 12;
    assert b.year == MonthIndex(b) / 12;
  }
}
