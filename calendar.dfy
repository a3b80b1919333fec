/**
 * The part of Python's `datetime.date` and `timedelta` that the period
 * arithmetic relies on: proleptic Gregorian dates, `replace(day=...)`, and
 * adding or subtracting a whole number of days.
 */
module Calendar {

  /** A calendar date, as `datetime.date` holds it. */
  datatype Date = Date(year: int, month: int, day: int)

  /** Gregorian leap years: every fourth year, except centuries not divisible by 400. */
  predicate IsLeapYear(y: int) {
    y % 4 == 0 && (y % 100 != 0 || y % 400 == 0)
  }

  /** Number of days in month `m` of year `y`. */
  function DaysInMonth(y: int, m: int): (n: int)
    requires 1 <= m <= 12
    ensures 28 <= n <= 31
    ensures n == 28 <==> m == 2 && !IsLeapYear(y)
    ensures n == 29 <==> m == 2 && IsLeapYear(y)
    ensures n == 30 <==> m in {4, 6, 9, 11}
  {
    if m == 2 then (if IsLeapYear(y) then 29 else 28)
    else if m == 4 || m == 6 || m == 9 || m == 11 then 30
    else 31
  }

  /** A date that names an existing day. */
  predicate ValidDate(d: Date) {
    1 <= d.month <= 12 && 1 <= d.day <= DaysInMonth(d.year, d.month)
  }

  /** Chronological order; for dates stored as ISO `YYYY-MM-DD` text this is also the text order. */
  predicate DateLe(a: Date, b: Date) {
    a.year < b.year
    || (a.year == b.year && (a.month < b.month || (a.month == b.month && a.day <= b.day)))
  }

  /** `d.replace(day=k)`: the same year and month, another day. */
  function ReplaceDay(d: Date, k: int): (r: Date)
    requires ValidDate(d) && 1 <= k <= DaysInMonth(d.year, d.month)
    ensures ValidDate(r) && r.year == d.year && r.month == d.month && r.day == k
  {
    Date(d.year, d.month, k)
  }

  /** The year and month that follow month `m` of year `y`. */
  function FollowingMonth(y: int, m: int): (ym: (int, int))
    requires 1 <= m <= 12
    ensures 1 <= ym.1 <= 12
    ensures ym.0 * 12 + ym.1 == y * 12 + m + 1
  {
    if m < 12 then (y, m + 1) else (y + 1, 1)
  }

  /** `d + timedelta(days=1)`. */
  function NextDay(d: Date): (r: Date)
    requires ValidDate(d)
    ensures ValidDate(r) && DateLe(d, r) && r != d
  {
    if d.day < DaysInMonth(d.year, d.month) then Date(d.year, d.month, d.day + 1)
    else if d.month < 12 then Date(d.year, d.month + 1, 1)
    else Date(d.year + 1, 1, 1)
  }

  /** `d - timedelta(days=1)`. */
  function PrevDay(d: Date): (r: Date)
    requires ValidDate(d)
    ensures ValidDate(r) && DateLe(r, d) && r != d
  {
    if d.day > 1 then Date(d.year, d.month, d.day - 1)
    else if d.month > 1 then Date(d.year, d.month - 1, DaysInMonth(d.year, d.month - 1))
    else Date(d.year - 1, 12, 31)
  }

  /** `d + timedelta(days=n)`. */
  function AddDays(d: Date, n: nat): (r: Date)
    requires ValidDate(d)
    ensures ValidDate(r) && DateLe(d, r)
    decreases n
  {
    if n == 0 then d else AddDays(NextDay(d), n - 1)
  }

  /** `d - timedelta(days=n)`. */
  function SubDays(d: Date, n: nat): (r: Date)
    requires ValidDate(d)
    ensures ValidDate(r) && DateLe(r, d)
    decreases n
  {
    if n == 0 then d else SubDays(PrevDay(d), n - 1)
  }

  /** The day before the day after is the date itself. */
  lemma PrevOfNextDay(d: Date)
    requires ValidDate(d)
    ensures PrevDay(NextDay(d)) == d
  {
    if d.day == DaysInMonth(d.year, d.month) && d.month == 12 {
      assert d == Date(d.year, 12, 31);
    }
  }

  /** Going back `n + 1` days is going back `n` days and then one more. */
  lemma {:induction false} SubDaysLast(d: Date, n: nat)
    requires ValidDate(d)
    ensures SubDays(d, n + 1) == PrevDay(SubDays(d, n))
    decreases n
  {
    if n > 0 {
      SubDaysLast(PrevDay(d), n - 1);
    }
  }

  /** `(d + timedelta(days=n)) - timedelta(days=n) == d`. */
  lemma {:induction false} SubDaysUndoesAddDays(d: Date, n: nat)
    requires ValidDate(d)
    ensures SubDays(AddDays(d, n), n) == d
    decreases n
  {
    if n > 0 {
      var x := AddDays(d, n);
      assert x == AddDays(NextDay(d), n - 1);
      SubDaysUndoesAddDays(NextDay(d), n - 1);
      SubDaysLast(x, n - 1);
      PrevOfNextDay(d);
    }
  }

  /**
   * The month-end computation used for the "21st-end" and "Current Month"
   * periods: `next = d.replace(day=28) + timedelta(days=4)`, then
   * `next - timedelta(days=next.day)`.
   */
  function MonthEndByDay28(d: Date): (r: Date)
    requires ValidDate(d)
    ensures ValidDate(r)
  {
    var next := AddDays(ReplaceDay(d, 28), 4);
    SubDays(next, next.day)
  }

  /** Four days after the 28th of any month is day 1 to 4 of the following month. */
  lemma Day28PlusFourInFollowingMonth(y: int, m: int)
    requires 1 <= m <= 12
    ensures var next := AddDays(Date(y, m, 28), 4);
      var ym := FollowingMonth(y, m);
      next == Date(ym.0, ym.1, 32 - DaysInMonth(y, m))
      && 1 <= next.day <= 4
  {
    var d0 := Date(y, m, 28);
    var d1 := NextDay(d0);
    var d2 := NextDay(d1);
    var d3 := NextDay(d2);
    var d4 := NextDay(d3);
    assert AddDays(d0, 4) == AddDays(d1, 3) == AddDays(d2, 2) == AddDays(d3, 1) == d4;
  }

  /** Going back `k` days from day `k` of a month reaches the last day of the month before. */
  lemma {:induction false} BackToPreviousMonthEnd(d: Date, k: nat)
    requires ValidDate(d) && 1 <= k <= d.day
    ensures SubDays(Date(d.year, d.month, k), k) == PrevDay(Date(d.year, d.month, 1))
  {
    if k > 1 {
      var e := Date(d.year, d.month, k);
      assert PrevDay(e) == Date(d.year, d.month, k - 1);
      BackToPreviousMonthEnd(d, k - 1);
    }
  }

  /** The day-28 computation yields the last day of the date's own month. */
  lemma MonthEndIsLastDay(d: Date)
    requires ValidDate(d)
    ensures MonthEndByDay28(d) == Date(d.year, d.month, DaysInMonth(d.year, d.month))
  {
    Day28PlusFourInFollowingMonth(d.year, d.month);
    var next := AddDays(ReplaceDay(d, 28), 4);
    BackToPreviousMonthEnd(next, next.day);
  }
}
