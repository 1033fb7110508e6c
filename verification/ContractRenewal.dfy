/** Start and end dates of a renewed contract (contract-renewal.service.ts). */
module ContractRenewal {
  import opened Calendar
  import opened Prelude

  /**
   * Adding months to a date and clipping to the end of the target month: the
   * month is exact and the day is the start day or the last day, if earlier.
   */
  function AddMonthsClipped(start: int, months: int): (end: int)
  {
    var k := MonthOf(start) + months;
    MonthStart(k) + Min(DateOf(start), LengthOf(k)) - 1
  }

  /** The date the clip rule picks, read back through the calendar. */
  lemma ClippedFields(start: int, months: int)
    ensures var end := AddMonthsClipped(start, months);
            && MonthOf(end) == MonthOf(start) + months
            && DateOf(end) == Min(DateOf(start), LengthOf(MonthOf(end)))
  {
    var k := MonthOf(start) + months;
    DateRange(start);
    DateSplit(k, Min(DateOf(start), LengthOf(k)));
    hide MonthStart, MonthOf, DateOf, LengthOf;
  }

  /** The mutating sequence of the service meets the clip rule on every input. */
  method ResolveEndDate(startDate: JsDate, durationMonths: int) returns (endDate: JsDate)
    ensures fresh(endDate)
    ensures endDate.day == AddMonthsClipped(startDate.day, durationMonths)
  {
    hide MonthStart, MonthOf, LengthOf, DateOf, FullYear;
    endDate := new JsDate(startDate.day);
    var targetDay := endDate.GetDate();
    endDate.SetDate(1);
    DateSplit(MonthOf(startDate.day), 1);
    endDate.SetMonth(endDate.GetMonth() + durationMonths);
    ghost var k := MonthOf(startDate.day) + durationMonths;
    assert endDate.day == MonthStart(k);
    DateSplit(k, 1);
    var lastDay := LastDayDate(endDate);
    endDate.SetDate(Min(targetDay, lastDay.GetDate()));
  }

  /** `new Date(year, month + 1, 0)`: day 0 of the next month is the last of this one. */
  method LastDayDate(date: JsDate) returns (lastDay: JsDate)
    ensures fresh(lastDay)
    ensures DateOf(lastDay.day) == LengthOf(MonthOf(date.day))
  {
    YearAndMonth(date.day);
    lastDay := new JsDate.Civil(date.GetFullYear(), date.GetMonth() + 1, 0);
    LastDayOfMonth(MonthOf(date.day));
  }

  /** Day 0 of the next month is the last day of this one. */
  lemma LastDayOfMonth(k: int)
    ensures DateOf(MonthStart(k + 1) - 1) == LengthOf(k)
  {
    MonthStep(k);
    DateSplit(k, LengthOf(k));
  }

  /** The term after an old one starts the day after it ends, unless overridden. */
  method ResolveStartDate(requested: Option<int>, oldEnd: int) returns (start: JsDate)
    ensures fresh(start)
    ensures start.day == if requested.Some? then requested.value else oldEnd + 1
  {
    if requested.Some? {
      return new JsDate(requested.value);
    }
    start := new JsDate(oldEnd);
    start.SetDate(start.GetDate() + 1);
  }

  /** A later start never ends earlier. */
  lemma EndMonotoneInStart(a: int, b: int, months: int)
    requires a <= b
    ensures AddMonthsClipped(a, months) <= AddMonthsClipped(b, months)
  {
    DayOrder(a, b);
    DayOrder(AddMonthsClipped(a, months), AddMonthsClipped(b, months));
    ClippedFields(a, months);
    ClippedFields(b, months);
  }

  /** A longer term ends strictly later, whatever the start day. */
  lemma EndStrictInDuration(start: int, shorter: int, longer: int)
    requires shorter < longer
    ensures AddMonthsClipped(start, shorter) < AddMonthsClipped(start, longer)
  {
    DayOrder(AddMonthsClipped(start, longer), AddMonthsClipped(start, shorter));
    ClippedFields(start, shorter);
    ClippedFields(start, longer);
  }

  /**
   * Clipping twice agrees with clipping once exactly when the intermediate
   * month did not shorten the day below what the final month allows.
   */
  lemma ClipComposes(start: int, n: int, m: int)
    ensures AddMonthsClipped(AddMonthsClipped(start, n), m) == AddMonthsClipped(start, n + m) <==>
            (DateOf(start) <= LengthOf(MonthOf(start) + n)
             || LengthOf(MonthOf(start) + n + m) <= LengthOf(MonthOf(start) + n))
  {
    ClippedFields(start, n);
  }

  /**
   * A chained renewal never starts on the day of the month its predecessor
   * started on: the end day belongs to the old term, so the day drifts.
   */
  lemma ChainedStartDrifts(start: int, months: int)
    ensures DateOf(AddMonthsClipped(start, months) + 1) != DateOf(start)
  {
    DateRange(start);
    DayAfterClip(DateOf(start), MonthOf(start) + months);
  }

  lemma DayAfterClip(date: int, k: int)
    requires 1 <= date <= 31
    ensures DateOf(MonthStart(k) + Min(date, LengthOf(k))) != date
  {
    hide LengthOf, MonthStart, MonthOf, DateOf;
    if date < LengthOf(k) {
      DateSplit(k, date + 1);
    } else {
      MonthStep(k);
      DateSplit(k + 1, 1);
    }
  }
}
