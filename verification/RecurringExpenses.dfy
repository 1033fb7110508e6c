/** Instances of a recurring expense (expenses.service.ts, generateRecurringExpenses). */
module RecurringExpenses {
  import opened Calendar
  import opened Prelude

  datatype Interval = Daily | Weekly | Monthly | Quarterly | Yearly

  datatype Expense = Expense(
    id: Option<int>,
    amount: int,
    date: int,
    isRecurring: bool,
    interval: Option<Interval>,
    recurrenceStart: Option<int>,
    recurrenceEnd: Option<int>,
    recurringExpenseId: Option<int>)

  /** The same day number some months on, which overflows past a short month. */
  function SameDayLater(date: int, months: int): int {
    MonthStart(MonthOf(date) + months) + DateOf(date) - 1
  }

  function Next(date: int, interval: Interval): int {
    match interval
    case Daily => date + 1
    case Weekly => date + 7
    case Monthly => SameDayLater(date, 1)
    case Quarterly => SameDayLater(date, 3)
    case Yearly => SameDayLater(date, 12)
  }

  function MinStep(interval: Interval): (n: int)
    ensures n >= 1
  {
    match interval case Daily => 1 case Weekly => 7 case Monthly => 28 case Quarterly => 89 case Yearly => 365
  }

  function MaxStep(interval: Interval): int {
    match interval case Daily => 1 case Weekly => 7 case Monthly => 31 case Quarterly => 92 case Yearly => 366
  }

  lemma QuarterLength(k: int)
    ensures 89 <= LengthOf(k) + LengthOf(k + 1) + LengthOf(k + 2) <= 92
  {
    var m := k % 12;
    assert (k + 1) % 12 == (if m == 11 then 0 else m + 1);
    assert (k + 2) % 12 == (if m >= 10 then m - 10 else m + 2);
  }

  lemma DaysBeforeByLeap(y: int, m: int)
    requires 0 <= m < 12
    ensures DaysBefore(y + 1, m) - DaysBefore(y, m) ==
            if m < 2 then 0 else (if IsLeap(y + 1) then 1 else 0) - (if IsLeap(y) then 1 else 0)
    decreases m
  {
    if m > 0 { DaysBeforeByLeap(y, m - 1); }
  }

  lemma YearOfMonths(k: int)
    ensures 365 <= MonthStart(k + 12) - MonthStart(k) <= 366
  {
    var y, m := k / 12, k % 12;
    MonthsInYear(y, m);
    assert 12 * y + m == k;
  }

  lemma MonthsInYear(y: int, m: int)
    requires 0 <= m < 12
    ensures 365 <= MonthStart(12 * y + m + 12) - MonthStart(12 * y + m) <= 366
  {
    DaysBeforeByLeap(y, m);
    YearStep(y);
    CarryNone(y, m);
    CarryNone(y + 1, m);
    hide IsLeap, DaysBefore, MonthLength;
  }

  lemma CarryNone(y: int, m: int)
    requires 0 <= m < 12
    ensures MonthStart(12 * y + m) == YearStart(y) + DaysBefore(y, m)
  {
    MakeDayCounts(y, m, 1);
  }

  /**
   * Every interval moves forward, by a bounded number of days; a monthly step
   * is exactly as long as the month it leaves, overflow included.
   */
  lemma StepBounds(date: int, interval: Interval)
    ensures MinStep(interval) <= Next(date, interval) - date <= MaxStep(interval)
    ensures interval == Monthly ==> Next(date, interval) - date == LengthOf(MonthOf(date))
  {
    var k := MonthOf(date);
    MonthStep(k);
    MonthStep(k + 1);
    MonthStep(k + 2);
    QuarterLength(k);
    YearOfMonths(k);
    hide LengthOf, MonthStart;
  }

  method AddInterval(date: JsDate, interval: Interval) returns (newDate: JsDate)
    ensures fresh(newDate) && newDate.day == Next(date.day, interval)
  {
    YearAndMonth(date.day);
    hide FullYear, Month, MonthStart, MonthOf, DateOf, MakeDay;
    newDate := new JsDate(date.day);
    match interval {
      case Daily =>
        newDate.SetDate(newDate.GetDate() + 1);
      case Weekly =>
        newDate.SetDate(newDate.GetDate() + 7);
      case Monthly =>
        newDate.SetMonth(newDate.GetMonth() + 1);
      case Quarterly =>
        newDate.SetMonth(newDate.GetMonth() + 3);
      case Yearly =>
        newDate.SetFullYear(newDate.GetFullYear() + 1);
    }
  }

  function Instance(parent: Expense, date: int): Expense {
    parent.(id := None, date := date, recurringExpenseId := parent.id, isRecurring := false)
  }

  function FirstDate(parent: Expense): int {
    if parent.recurrenceStart.Some? then parent.recurrenceStart.value else parent.date
  }

  /** The stored end date, or two years from today with the overflow of 29 February. */
  function EndDate(parent: Expense, today: int): int {
    if parent.recurrenceEnd.Some? then parent.recurrenceEnd.value
    else SameDayLater(today, 24)
  }

  /** The dates are the orbit of the start under the interval, cut at the end. */
  ghost predicate IsSchedule(dates: seq<int>, start: int, end: int, interval: Interval) {
    && (dates == [] <==> start >= end)
    && (dates != [] ==> dates[0] == start && dates[|dates| - 1] < end <= Next(dates[|dates| - 1], interval))
    && forall i :: 0 <= i < |dates| - 1 ==> dates[i + 1] == Next(dates[i], interval)
  }

  function DatesOf(expenses: seq<Expense>): (dates: seq<int>)
    ensures |dates| == |expenses|
    ensures forall i :: 0 <= i < |dates| ==> dates[i] == expenses[i].date
  {
    seq(|expenses|, i requires 0 <= i < |expenses| => expenses[i].date)
  }

  /** Generation terminates on the calendar alone and builds exactly the schedule. */
  method GenerateRecurringExpenses(parent: Expense, today: int) returns (expenses: seq<Expense>)
    ensures parent.isRecurring && parent.interval.Some? ==>
              IsSchedule(DatesOf(expenses), FirstDate(parent), EndDate(parent, today), parent.interval.value)
    ensures !(parent.isRecurring && parent.interval.Some?) ==> expenses == []
    ensures forall i :: 0 <= i < |expenses| ==> expenses[i] == Instance(parent, expenses[i].date)
    ensures expenses != [] ==> expenses[0].date == match parent.recurrenceStart case Some(start) => start case None => parent.date
    ensures forall i :: 0 <= i < |expenses| ==>
              && expenses[i].id.None? && expenses[i].recurringExpenseId == parent.id && !expenses[i].isRecurring
              && expenses[i].amount == parent.amount
  {
    expenses := [];
    if !parent.isRecurring || parent.interval.None? {
      return;
    }
    var interval := parent.interval.value;
    var currentDate := new JsDate(FirstDate(parent));
    var endDate: JsDate;
    if parent.recurrenceEnd.Some? {
      endDate := new JsDate(parent.recurrenceEnd.value);
    } else {
      endDate := new JsDate(today);
      endDate.SetFullYear(endDate.GetFullYear() + 2);
    }
    var limit := endDate.day;
    assert limit == EndDate(parent, today);
    ghost var dates: seq<int> := [];
    while currentDate.day < limit
      invariant fresh(currentDate)
      invariant dates == DatesOf(expenses)
      invariant dates == [] ==> currentDate.day == FirstDate(parent)
      invariant dates != [] ==> dates[0] == FirstDate(parent) < limit
      invariant dates != [] ==> dates[|dates| - 1] < limit && currentDate.day == Next(dates[|dates| - 1], interval)
      invariant forall i :: 0 <= i < |dates| - 1 ==> dates[i + 1] == Next(dates[i], interval)
      invariant forall i :: 0 <= i < |expenses| ==> expenses[i] == Instance(parent, expenses[i].date)
      decreases limit - currentDate.day
    {
      StepBounds(currentDate.day, interval);
      expenses := expenses + [Instance(parent, currentDate.day)];
      dates := dates + [currentDate.day];
      currentDate := AddInterval(currentDate, interval);
    }
  }

  /** Dates strictly increase inside [start, end), and their number is bounded both ways. */
  lemma ScheduleBounds(dates: seq<int>, start: int, end: int, interval: Interval)
    requires IsSchedule(dates, start, end, interval)
    ensures forall i, j :: 0 <= i < j < |dates| ==> dates[i] < dates[j]
    ensures forall i :: 0 <= i < |dates| ==> start <= dates[i] < end
    ensures start < end ==>
              MinStep(interval) * (|dates| - 1) < end - start <= MaxStep(interval) * |dates|
  {
    if dates != [] {
      forall p, q | 0 <= p < q < |dates| && q == p + 1
        ensures MinStep(interval) <= dates[q] - dates[p] <= MaxStep(interval)
      {
        assert dates[p + 1] == Next(dates[p], interval);
        StepBounds(dates[p], interval);
      }
      forall i, j | 0 <= i < j < |dates| ensures dates[i] < dates[j] {
        OrbitBounds(dates, MinStep(interval), MaxStep(interval), i, j);
      }
      OrbitBounds(dates, MinStep(interval), MaxStep(interval), 0, |dates| - 1);
      StepBounds(dates[|dates| - 1], interval);
      Distribute(MaxStep(interval), |dates| - 1);
    }
  }

  lemma Distribute(a: int, n: int)
    ensures a * (n + 1) == a * n + a
  {
  }

  ghost predicate StepsWithin(dates: seq<int>, least: nat, most: nat) {
    forall p, q :: 0 <= p < q < |dates| && q == p + 1 ==> 1 <= least <= dates[q] - dates[p] <= most
  }

  lemma {:induction false} OrbitBounds(dates: seq<int>, least: nat, most: nat, i: int, j: int)
    requires StepsWithin(dates, least, most)
    requires 0 <= i <= j < |dates|
    ensures least * (j - i) <= dates[j] - dates[i] <= most * (j - i)
    ensures i < j ==> dates[i] < dates[j]
    decreases j
  {
    if i < j {
      OrbitBounds(dates, least, most, i, j - 1);
      assert least <= dates[j] - dates[j - 1] <= most;
      Distribute(least, j - 1 - i);
      Distribute(most, j - 1 - i);
    }
  }

  function Repeat(date: int, n: nat): int {
    if n == 0 then date else Next(Repeat(date, n - 1), Monthly)
  }

  lemma {:induction false} EarlyDayRepeats(start: int, n: nat)
    requires DateOf(start) <= 28
    ensures MonthOf(Repeat(start, n)) == MonthOf(start) + n && DateOf(Repeat(start, n)) == DateOf(start)
  {
    if n > 0 {
      EarlyDayRepeats(start, n - 1);
      EarlyDayStep(Repeat(start, n - 1));
    }
  }

  lemma EarlyDayStep(date: int)
    requires DateOf(date) <= 28
    ensures MonthOf(SameDayLater(date, 1)) == MonthOf(date) + 1 && DateOf(SameDayLater(date, 1)) == DateOf(date)
  {
    DateRange(date);
    DateSplit(MonthOf(date) + 1, DateOf(date));
  }

  /**
   * Monthly instances fall on the start day, one in every month, exactly when
   * that day exists in every month: from day 29 on, some February is skipped.
   */
  lemma MonthlyKeepsDayIff(start: int)
    ensures (forall n: nat :: MonthOf(Repeat(start, n)) == MonthOf(start) + n && DateOf(Repeat(start, n)) == DateOf(start)) <==>
            DateOf(start) <= 28
  {
    DateRange(start);
    if DateOf(start) <= 28 {
      forall n: nat
        ensures MonthOf(Repeat(start, n)) == MonthOf(start) + n && DateOf(Repeat(start, n)) == DateOf(start)
      {
        EarlyDayRepeats(start, n);
      }
    } else {
      var y := FullYear(start) + if IsLeap(FullYear(start) + 1) then 2 else 1;
      var february := 12 * y + 1;
      var n: nat := february - MonthOf(start);
      CarryMonths(y, 1);
      YearAndMonth(start);
      assert LengthOf(february) == 28;
      DateRange(Repeat(start, n));
      assert MonthOf(Repeat(start, n)) != MonthOf(start) + n || DateOf(Repeat(start, n)) != DateOf(start);
    }
  }
}
