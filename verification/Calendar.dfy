/**
 * Civil dates as day serials (days since 1 January 1970), with the day
 * arithmetic of ECMA-262, section 21.4.1. Months count from 0 and overflow into
 * the year, days of the month count from 1 and overflow into the month.
 */
module Calendar {

  predicate IsLeap(y: int) {
    y % 4 == 0 && (y % 100 != 0 || y % 400 == 0)
  }

  function YearLength(y: int): (n: int)
    ensures n == 365 || n == 366
  {
    if IsLeap(y) then 366 else 365
  }

  /** Serial of 1 January of a year, counting the years one by one. */
  function YearStart(y: int): int
    decreases if y >= 1970 then y - 1970 else 1970 - y
  {
    if y == 1970 then 0
    else if y > 1970 then YearStart(y - 1) + YearLength(y - 1)
    else YearStart(y + 1) - YearLength(y)
  }

  /** `DayFromYear(y)` of ECMA-262 counts the years in closed form. */
  lemma {:induction false} DayFromYear(y: int)
    ensures YearStart(y) == 365 * (y - 1970) + (y - 1969) / 4 - (y - 1901) / 100 + (y - 1601) / 400
    decreases if y >= 1970 then y - 1970 else 1970 - y
  {
    if y > 1970 {
      DayFromYear(y - 1);
      LeapCount(y - 1);
    } else if y < 1970 {
      DayFromYear(y + 1);
      LeapCount(y);
    }
  }

  lemma LeapCount(y: int)
    ensures (y - 1968) / 4 - (y - 1969) / 4 == if y % 4 == 0 then 1 else 0
    ensures (y - 1900) / 100 - (y - 1901) / 100 == if y % 100 == 0 then 1 else 0
    ensures (y - 1600) / 400 - (y - 1601) / 400 == if y % 400 == 0 then 1 else 0
    ensures y % 400 == 0 ==> y % 100 == 0
    ensures y % 100 == 0 ==> y % 4 == 0
  {
    FourthStep(y - 1969);
    assert (y - 1968) % 4 == y % 4;
    CenturyStep(y - 1901);
    assert (y - 1900) % 100 == y % 100;
    EraStep(y - 1601);
    assert (y - 1600) % 400 == y % 400;
    CenturyIsFourth(y);
  }

  lemma CenturyIsFourth(y: int)
    ensures y % 400 == 0 ==> y % 100 == 0
    ensures y % 100 == 0 ==> y % 4 == 0
  {
  }

  lemma FourthStep(a: int)
    ensures (a + 1) / 4 - a / 4 == if (a + 1) % 4 == 0 then 1 else 0
  {
  }

  lemma CenturyStep(a: int)
    ensures (a + 1) / 100 - a / 100 == if (a + 1) % 100 == 0 then 1 else 0
  {
  }

  lemma EraStep(a: int)
    ensures (a + 1) / 400 - a / 400 == if (a + 1) % 400 == 0 then 1 else 0
  {
  }

  function MonthLength(y: int, m: int): (n: int)
    requires 0 <= m < 12
    ensures 28 <= n <= 31
  {
    if m == 1 then (if IsLeap(y) then 29 else 28)
    else if m == 3 || m == 5 || m == 8 || m == 10 then 30
    else 31
  }

  /** Days of the year before a month. */
  function DaysBefore(y: int, m: int): (n: int)
    requires 0 <= m <= 12
    ensures 28 * m <= n <= 31 * m
    decreases m
  {
    if m == 0 then 0 else DaysBefore(y, m - 1) + MonthLength(y, m - 1)
  }

  function LengthOf(k: int): (n: int)
    ensures 28 <= n <= 31
  {
    MonthLength(k / 12, k % 12)
  }

  /**
   * Serial of day 1 of the month `k` months after January of year 0, found by
   * counting months one at a time from January 1970.
   */
  function MonthStart(k: int): int
    decreases if k >= EPOCH then k - EPOCH else EPOCH - k
  {
    if k == EPOCH then 0
    else if k > EPOCH then MonthStart(k - 1) + LengthOf(k - 1)
    else MonthStart(k + 1) - LengthOf(k)
  }

  const EPOCH := 23640

  /** `MakeDay(year, month, date)` of ECMA-262, for any integer month and date. */
  function MakeDay(year: int, month: int, date: int): int {
    var y, m := year + month / 12, month % 12;
    YearStart(y) + DaysBefore(y, m) + date - 1
  }

  lemma YearStep(y: int)
    ensures YearStart(y + 1) == YearStart(y) + YearLength(y)
    ensures DaysBefore(y, 12) == YearLength(y)
  {
    assert DaysBefore(y, 12) == DaysBefore(y, 8) + 122;
    assert DaysBefore(y, 8) == DaysBefore(y, 4) + 123;
  }

  /** Consecutive months are adjacent, across the end of a year too. */
  lemma MonthStep(k: int)
    ensures MonthStart(k + 1) == MonthStart(k) + LengthOf(k)
  {
  }

  /** `MakeDay` moves from one month to the next by the length of the month. */
  lemma ClosedFormStep(k: int)
    ensures MakeDay(0, k + 1, 1) == MakeDay(0, k, 1) + LengthOf(k)
  {
    if k % 12 == 11 {
      YearStep(k / 12);
      assert (k + 1) / 12 == k / 12 + 1 && (k + 1) % 12 == 0;
    } else {
      assert (k + 1) / 12 == k / 12 && (k + 1) % 12 == k % 12 + 1;
    }
  }

  lemma {:induction false} ClosedForm(k: int)
    ensures MakeDay(0, k, 1) == MonthStart(k)
    decreases if k >= EPOCH then k - EPOCH else EPOCH - k
  {
    if k > EPOCH {
      ClosedForm(k - 1);
      ClosedFormStep(k - 1);
    } else if k < EPOCH {
      ClosedForm(k + 1);
      ClosedFormStep(k);
    } else {
      assert YearStart(1970) == 0;
    }
  }

  /** The closed form of ECMA-262 agrees with counting the months one by one. */
  lemma MakeDayCounts(year: int, month: int, date: int)
    ensures MakeDay(year, month, date) == MonthStart(12 * year + month) + date - 1
  {
    ClosedForm(12 * year + month);
    CarryMonths(year, month);
  }

  /** Days from 1 March to the first of the month `m` months later, January and February counting last. */
  lemma DaysSinceMarch(y: int, m: int)
    requires 0 <= m < 12
    ensures DaysBefore(y, m) == if m < 2 then (153 * (m + 10) + 2) / 5 - 306
                                else (153 * (m - 2) + 2) / 5 + 59 + (if IsLeap(y) then 1 else 0)
    decreases m
  {
    if m > 0 { DaysSinceMarch(y, m - 1); }
  }

  lemma LeapYears(y: int)
    ensures y / 4 == (y - 1968) / 4 + 492
    ensures y / 100 == (y - 1900) / 100 + 19
    ensures y / 400 == (y - 1600) / 400 + 4
  {
  }

  /** The first of March, from the year it lies in and from the year after. */
  lemma MarchStart(y: int)
    ensures YearStart(y) + 59 + (if IsLeap(y) then 1 else 0) == 365 * y + y / 4 - y / 100 + y / 400 - 719468
    ensures YearStart(y + 1) - 306 == 365 * y + y / 4 - y / 100 + y / 400 - 719468
  {
    DayFromYear(y);
    LeapYears(y);
    LeapCount(y);
    YearStep(y);
    hide YearStart;
  }

  lemma MarchYear(y: int, m: int)
    requires 0 <= m < 12
    ensures m >= 2 ==> (12 * y + m - 2) / 12 == y && (12 * y + m - 2) % 12 == m - 2
    ensures m < 2 ==> (12 * y + m - 2) / 12 == y - 1 && (12 * y + m - 2) % 12 == m + 10
  {
  }

  /**
   * The proleptic Gregorian calendar without a table of months, for any integer
   * year, month and date: years that begin in March put 29 February last, and
   * their months begin every 153 days in five.
   */
  lemma MakeDayIsGregorian(year: int, month: int, date: int)
    ensures var months := 12 * year + month - 2;
            var y, m := months / 12, months % 12;
            MakeDay(year, month, date) == 365 * y + y / 4 - y / 100 + y / 400 + (153 * m + 2) / 5 + date - 719469
  {
    var y, m := year + month / 12, month % 12;
    CarryMonths(year, month);
    assert 12 * year + month == 12 * y + m;
    MarchYear(y, m);
    DaysSinceMarch(y, m);
    MarchStart(y);
    MarchStart(y - 1);
    hide YearStart, DaysBefore, IsLeap;
  }

  lemma CarryMonths(year: int, month: int)
    ensures (12 * year + month) / 12 == year + month / 12
    ensures (12 * year + month) % 12 == month % 12
  {
  }

  lemma {:induction false} MonthsGrow(j: int, k: int)
    requires j <= k
    ensures 28 * (k - j) <= MonthStart(k) - MonthStart(j) <= 31 * (k - j)
    decreases k - j
  {
    if j < k {
      MonthsGrow(j, k - 1);
      MonthStep(k - 1);
    }
  }

  /** Searches for the month holding a day, from any starting guess. */
  function SearchMonth(day: int, k: int): int
    decreases if day < MonthStart(k) then MonthStart(k) - day
              else if day >= MonthStart(k + 1) then day - MonthStart(k) else 0
  {
    MonthStep(k - 1);
    MonthStep(k);
    MonthStep(k + 1);
    if day < MonthStart(k) then SearchMonth(day, k - 1)
    else if day >= MonthStart(k + 1) then SearchMonth(day, k + 1)
    else k
  }

  lemma {:induction false} SearchFinds(day: int, k: int)
    ensures var found := SearchMonth(day, k); MonthStart(found) <= day < MonthStart(found + 1)
    decreases if day < MonthStart(k) then MonthStart(k) - day
              else if day >= MonthStart(k + 1) then day - MonthStart(k) else 0
  {
    MonthStep(k - 1);
    MonthStep(k);
    MonthStep(k + 1);
    if day < MonthStart(k) { SearchFinds(day, k - 1); }
    else if day >= MonthStart(k + 1) { SearchFinds(day, k + 1); }
  }

  /** Months since year 0 of the month a day lies in. */
  function MonthOf(day: int): int {
    SearchMonth(day, EPOCH + day / 31)
  }

  lemma MonthRange(day: int)
    ensures MonthStart(MonthOf(day)) <= day < MonthStart(MonthOf(day) + 1)
  {
    SearchFinds(day, EPOCH + day / 31);
  }

  function FullYear(day: int): int { MonthOf(day) / 12 }

  function Month(day: int): int { MonthOf(day) % 12 }

  lemma YearAndMonth(day: int)
    ensures 12 * FullYear(day) + Month(day) == MonthOf(day)
    ensures 0 <= Month(day) < 12
  {
  }

  /** Day of the month, from 1. */
  function DateOf(day: int): int {
    day - MonthStart(MonthOf(day)) + 1
  }

  lemma DateRange(day: int)
    ensures 1 <= DateOf(day) <= LengthOf(MonthOf(day))
  {
    MonthRange(day);
    MonthStep(MonthOf(day));
  }

  lemma MonthUnique(day: int, k: int)
    requires MonthStart(k) <= day < MonthStart(k + 1)
    ensures MonthOf(day) == k
  {
    var found := MonthOf(day);
    MonthRange(day);
    if found < k { MonthsGrow(found + 1, k); }
    if k < found { MonthsGrow(k + 1, found); }
  }

  /** Splitting a day into its fields and putting it together gives the day back. */
  lemma MakeDayOfFields(day: int)
    ensures MakeDay(FullYear(day), Month(day), DateOf(day)) == day
  {
    MakeDayCounts(FullYear(day), Month(day), DateOf(day));
    YearAndMonth(day);
    hide MakeDay, FullYear, Month, MonthOf, MonthStart;
  }

  /** A date that exists on the calendar keeps its fields. */
  lemma FieldsOfMakeDay(year: int, month: int, date: int)
    requires 0 <= month < 12 && 1 <= date <= MonthLength(year, month)
    ensures var made := MakeDay(year, month, date);
            FullYear(made) == year && Month(made) == month && DateOf(made) == date
  {
    hide MakeDay, MonthOf, MonthStart, DateOf, MonthLength;
    MakeDayCounts(year, month, date);
    CarryMonths(year, month);
    assert month / 12 == 0 && month % 12 == month;
    assert LengthOf(12 * year + month) == MonthLength(year, month);
    DateSplit(12 * year + month, date);
  }

  lemma DateSplit(k: int, date: int)
    requires 1 <= date <= LengthOf(k)
    ensures MonthOf(MonthStart(k) + date - 1) == k
    ensures DateOf(MonthStart(k) + date - 1) == date
  {
    MonthStep(k);
    MonthUnique(MonthStart(k) + date - 1, k);
  }

  /** The order of days is the order of their (month, day of month) pairs. */
  lemma DayOrder(a: int, b: int)
    ensures a <= b <==> (MonthOf(a) < MonthOf(b) || (MonthOf(a) == MonthOf(b) && DateOf(a) <= DateOf(b)))
  {
    var j, k := MonthOf(a), MonthOf(b);
    MonthRange(a);
    MonthRange(b);
    if j < k { MonthsGrow(j + 1, k); }
    if k < j { MonthsGrow(k + 1, j); }
  }

  /** The mutable `Date` of JavaScript, seen as a civil date. */
  class JsDate {
    var day: int

    constructor (day: int)
      ensures this.day == day
    {
      this.day := day;
    }

    /** `new Date(year, month, date)`. */
    constructor Civil(year: int, month: int, date: int)
      ensures day == MonthStart(12 * year + month) + date - 1
    {
      MakeDayCounts(year, month, date);
      day := MakeDay(year, month, date);
    }

    function GetDate(): int
      reads this
    { DateOf(day) }

    function GetMonth(): int
      reads this
    { Month(day) }

    function GetFullYear(): int
      reads this
    { FullYear(day) }

    method SetDate(date: int)
      modifies this
      ensures day == MonthStart(MonthOf(old(day))) + date - 1
    {
      YearAndMonth(day);
      MakeDayCounts(GetFullYear(), GetMonth(), date);
      day := MakeDay(GetFullYear(), GetMonth(), date);
    }

    method SetMonth(month: int)
      modifies this
      ensures day == MonthStart(MonthOf(old(day)) - Month(old(day)) + month) + DateOf(old(day)) - 1
    {
      YearAndMonth(day);
      MakeDayCounts(GetFullYear(), month, GetDate());
      day := MakeDay(GetFullYear(), month, GetDate());
    }

    method SetFullYear(year: int)
      modifies this
      ensures day == MonthStart(12 * year + Month(old(day))) + DateOf(old(day)) - 1
    {
      MakeDayCounts(year, GetMonth(), GetDate());
      day := MakeDay(year, GetMonth(), GetDate());
    }
  }
}
