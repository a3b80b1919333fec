/** `get_period_dates` from utils.py: a period label and today's date give a date range. */
module Periods {
  import opened Wrappers
  import opened Calendar

  /** An inclusive range of dates. */
  datatype DateRange = DateRange(start: Date, end: Date)

  /** `date BETWEEN start AND end`: both ends included. */
  predicate InRange(d: Date, r: DateRange) {
    DateLe(r.start, d) && DateLe(d, r.end)
  }

  /** The period labels that `get_period_dates` recognises. */
  const FirstDecade: string := "1st-10th"
  const SecondDecade: string := "11th-20th"
  const LastDecade: string := "21st-end"

  /**
   * `get_period_dates(period)` with `datetime.today().date()` passed in as
   * `today`. `None` stands for the pair `(None, None)` returned for every
   * other label.
   */
  function PeriodDates(period: string, today: Date): (r: Option<DateRange>)
    requires ValidDate(today)
    ensures r.Some? <==> period in {FirstDecade, SecondDecade, LastDecade}
    ensures r.Some? ==>
      && ValidDate(r.value.start) && ValidDate(r.value.end)
      && DateLe(r.value.start, r.value.end)
      && r.value.start.year == r.value.end.year == today.year
      && r.value.start.month == r.value.end.month == today.month
    ensures period == FirstDecade ==> r.value.start.day == 1 && r.value.end.day == 10
    ensures period == SecondDecade ==> r.value.start.day == 11 && r.value.end.day == 20
    ensures period == LastDecade ==>
      r.value.start.day == 21 && r.value.end.day == DaysInMonth(today.year, today.month)
  {
    if period == FirstDecade then
      Some(DateRange(ReplaceDay(today, 1), ReplaceDay(today, 10)))
    else if period == SecondDecade then
      Some(DateRange(ReplaceDay(today, 11), ReplaceDay(today, 20)))
    else if period == LastDecade then
      MonthEndIsLastDay(today);
      Some(DateRange(ReplaceDay(today, 21), MonthEndByDay28(today)))
    else
      None
  }

  /** The range depends on today's year and month only, not on its day. */
  lemma PeriodDatesIgnoreDay(period: string, t1: Date, t2: Date)
    requires ValidDate(t1) && ValidDate(t2)
    requires t1.year == t2.year && t1.month == t2.month
    ensures PeriodDates(period, t1) == PeriodDates(period, t2)
  {
    MonthEndIsLastDay(t1);
    MonthEndIsLastDay(t2);
  }

  /**
   * The three periods split today's month: a valid date lies in one of them
   * exactly when it is in today's year and month, and in no more than one.
   */
  lemma DecadesPartitionMonth(d: Date, today: Date)
    requires ValidDate(d) && ValidDate(today)
    ensures var first := PeriodDates(FirstDecade, today).value;
            var second := PeriodDates(SecondDecade, today).value;
            var last := PeriodDates(LastDecade, today).value;
            && (InRange(d, first) || InRange(d, second) || InRange(d, last)
                <==> d.year == today.year && d.month == today.month)
            && !(InRange(d, first) && InRange(d, second))
            && !(InRange(d, first) && InRange(d, last))
            && !(InRange(d, second) && InRange(d, last))
  {
  }
}
