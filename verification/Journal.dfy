/**
 * The tables of the double-entry ledger: chart of accounts, journal entries
 * with their lines, and accounting periods. Amounts are integer cents; the
 * identifier of an entry or an account is its position plus one.
 */
module Journal {
  import opened Prelude
  import Calendar

  datatype AccountKind = Asset | Liability | Equity | Income | Expense

  datatype Account = Account(code: string, kind: AccountKind, active: bool)

  /** The dimensions a line may be tagged with. */
  datatype Tags = Tags(
    propertyId: Option<int>, unitId: Option<int>, ownerId: Option<int>, tenantUserId: Option<int>,
    vendorId: Option<int>, contractId: Option<int>, paymentId: Option<int>, expenseId: Option<int>)

  const UNTAGGED := Tags(None, None, None, None, None, None, None, None)

  /** A stored line; `account` is the position of the account in the chart. */
  datatype Line = Line(account: nat, tags: Tags, debit: nat, credit: nat, memo: Option<string>)

  datatype Basis = Cash | Accrual

  datatype EntryStatus = Posted | Reversed

  datatype Civil = Civil(year: int, month: int, day: int)

  datatype Entry = Entry(
    number: string,
    date: Civil,
    description: string,
    sourceModule: Option<string>,
    sourceId: Option<string>,
    basis: Basis,
    status: EntryStatus,
    reversedBy: Option<nat>,
    lines: seq<Line>)

  datatype PeriodStatus = Open | Closed

  datatype Period = Period(
    status: PeriodStatus, closedAt: Option<int>, closedBy: Option<int>,
    reopenedAt: Option<int>, reopenedBy: Option<int>, reopenReason: Option<string>)

  datatype Books = Books(chart: seq<Account>, entries: seq<Entry>, periods: map<(int, int), Period>)

  // ------------------------------------------------------------------ dates

  predicate IsDigit(c: char) { '0' <= c <= '9' }

  function DigitsValue(s: string): nat
    requires forall c :: c in s ==> IsDigit(c)
  {
    if s == [] then 0
    else
      assert IsDigit(s[|s| - 1]);
      10 * DigitsValue(s[..|s| - 1]) + (s[|s| - 1] as int - '0' as int)
  }

  /** The shape `^\d{4}-\d{2}-\d{2}$`. */
  predicate IsDateText(s: string) {
    |s| == 10 && forall i :: 0 <= i < 10 ==> if i == 4 || i == 7 then s[i] == '-' else IsDigit(s[i])
  }

  function ReadCivil(s: string): Civil
    requires IsDateText(s)
  {
    Civil(DigitsValue(s[..4]), DigitsValue(s[5..7]), DigitsValue(s[8..]))
  }

  function Zeros(n: nat): (text: string)
    ensures |text| == n && forall c :: c in text ==> c == '0'
  {
    if n == 0 then "" else Zeros(n - 1) + "0"
  }

  /** A number with leading zeros up to a width. */
  function Padded(n: nat, width: nat): string {
    var text := DecimalText(n);
    if |text| < width then Zeros(width - |text|) + text else text
  }

  /** A date as `YYYY-MM-DD`. */
  function DateText(d: Civil): string
    requires d.year >= 0 && d.month >= 0 && d.day >= 0
  {
    Padded(d.year, 4) + "-" + Padded(d.month, 2) + "-" + Padded(d.day, 2)
  }

  /** The text is the date, digit for digit. */
  predicate Prints(d: Civil, text: string) {
    d.year >= 0 && d.month >= 0 && d.day >= 0 && DateText(d) == text
  }

  lemma {:induction false} DecimalRead(n: nat)
    ensures forall c :: c in DecimalText(n) ==> IsDigit(c)
    ensures DigitsValue(DecimalText(n)) == n
    ensures |DecimalText(n)| == 1 <==> n < 10
    ensures |DecimalText(n)| == 2 <==> 10 <= n < 100
    ensures |DecimalText(n)| == 3 <==> 100 <= n < 1000
    ensures |DecimalText(n)| == 4 <==> 1000 <= n < 10000
  {
    var text := DecimalText(n);
    if n >= 10 {
      DecimalRead(n / 10);
      assert text[..|text| - 1] == DecimalText(n / 10);
    } else {
      assert text[..0] == [];
    }
  }

  /** Leading zeros do not change what digits say. */
  lemma {:induction false} ZerosRead(n: nat, text: string)
    requires forall c :: c in text ==> IsDigit(c)
    ensures forall c :: c in Zeros(n) + text ==> IsDigit(c)
    ensures DigitsValue(Zeros(n) + text) == DigitsValue(text)
    decreases n + |text|
  {
    var all := Zeros(n) + text;
    if text != [] {
      ZerosRead(n, text[..|text| - 1]);
      assert all[..|all| - 1] == Zeros(n) + text[..|text| - 1];
    } else if n > 0 {
      ZerosRead(n - 1, []);
      assert all == Zeros(n) && all[..n - 1] == Zeros(n - 1) && Zeros(n - 1) + [] == Zeros(n - 1);
    }
  }

  /** Digits printed again at their own width give the same digits back. */
  lemma {:induction false} DigitsPrint(s: string)
    requires s != [] && forall c :: c in s ==> IsDigit(c)
    ensures Padded(DigitsValue(s), |s|) == s
  {
    var k := |s| - 1;
    assert IsDigit(s[k]);
    var digit := s[k] as int - '0' as int;
    if k == 0 {
      assert s[..0] == [] && s == [s[0]];
      PrintDigit(digit);
    } else {
      DigitsPrint(s[..k]);
      assert s == s[..k] + [s[k]];
      PrintNext(DigitsValue(s[..k]), digit, k);
    }
  }

  lemma PrintDigit(digit: nat)
    requires digit < 10
    ensures DecimalText(digit) == [('0' as int + digit) as char] && Padded(digit, 1) == DecimalText(digit)
  {
  }

  /** One digit more, and one place more. */
  lemma PrintNext(before: nat, digit: nat, width: nat)
    requires digit < 10 && width > 0
    ensures Padded(10 * before + digit, width + 1) == Padded(before, width) + [('0' as int + digit) as char]
  {
    PrintDigit(digit);
    if before == 0 {
      PrintDigit(0);
      assert Zeros(width) == (if width > 1 then Zeros(width - 1) + "0" else "0");
    } else {
      assert (10 * before + digit) / 10 == before && (10 * before + digit) % 10 == digit;
      assert DecimalText(10 * before + digit) == DecimalText(before) + [('0' as int + digit) as char];
    }
  }

  /** A date text read and printed again is the same text. */
  lemma DateReadsPrint(s: string)
    requires IsDateText(s)
    ensures Prints(ReadCivil(s), s)
  {
    DigitsPrint(s[..4]);
    DigitsPrint(s[5..7]);
    DigitsPrint(s[8..]);
    assert s == s[..4] + "-" + s[5..7] + "-" + s[8..];
  }

  /** Every date of the years 0 to 9999 reads back from its text. */
  lemma PrintedDateReads(d: Civil)
    requires 0 <= d.year < 10000 && 0 <= d.month < 100 && 0 <= d.day < 100
    ensures IsDateText(DateText(d)) && ReadCivil(DateText(d)) == d
  {
    PaddedReads(d.year, 4);
    PaddedReads(d.month, 2);
    PaddedReads(d.day, 2);
    var s := DateText(d);
    assert s[..4] == Padded(d.year, 4) && s[5..7] == Padded(d.month, 2) && s[8..] == Padded(d.day, 2);
    assert forall i :: 0 <= i < 4 ==> s[i] == s[..4][i];
    assert forall i :: 5 <= i < 7 ==> s[i] == s[5..7][i - 5];
    assert forall i :: 8 <= i < 10 ==> s[i] == s[8..][i - 8];
  }

  lemma ShortText(n: nat)
    ensures n < 100 ==> |DecimalText(n)| <= 2
    ensures n < 10000 ==> |DecimalText(n)| <= 4
  {
    DecimalRead(n);
    hide DecimalText, DigitsValue;
  }

  lemma PaddedReads(n: nat, width: nat)
    requires (width == 2 && n < 100) || (width == 4 && n < 10000)
    ensures |Padded(n, width)| == width && forall c :: c in Padded(n, width) ==> IsDigit(c)
    ensures DigitsValue(Padded(n, width)) == n
  {
    hide DecimalText, DigitsValue, Zeros;
    var text := DecimalText(n);
    DecimalRead(n);
    ShortText(n);
    assert |text| <= width;
    ZerosRead(width - |text|, text);
  }

  /** A date a DATE column accepts. */
  predicate Exists(d: Civil) {
    1 <= d.month <= 12 && 1 <= d.day <= Calendar.MonthLength(d.year, d.month - 1)
  }

  function Serial(d: Civil): int {
    Calendar.MakeDay(d.year, d.month - 1, d.day)
  }

  lemma SerialFields(d: Civil)
    requires Exists(d)
    ensures Calendar.MonthOf(Serial(d)) == 12 * d.year + d.month - 1 && Calendar.DateOf(Serial(d)) == d.day
  {
    hide Calendar.MakeDay, Calendar.MonthOf, Calendar.DateOf, Calendar.MonthLength;
    Calendar.FieldsOfMakeDay(d.year, d.month - 1, d.day);
    Calendar.YearAndMonth(Serial(d));
  }

  /** Dates come in the order of year, month and day. */
  lemma SerialOrder(a: Civil, b: Civil)
    requires Exists(a) && Exists(b)
    ensures Serial(a) <= Serial(b) <==>
            a.year < b.year || (a.year == b.year && (a.month < b.month || (a.month == b.month && a.day <= b.day)))
  {
    hide Serial, Calendar.MonthOf, Calendar.DateOf, Calendar.MonthLength;
    SerialFields(a);
    SerialFields(b);
    Calendar.DayOrder(Serial(a), Serial(b));
  }

  /** Years and months an accounting period may have. */
  predicate ValidYearMonth(year: int, month: int) {
    2000 <= year <= 2100 && 1 <= month <= 12
  }

  predicate InMonth(e: Entry, year: int, month: int) {
    e.date.year == year && e.date.month == month
  }

  // ------------------------------------------------------------------- sums

  function Debits(lines: seq<Line>): nat {
    if lines == [] then 0 else Debits(lines[..|lines| - 1]) + lines[|lines| - 1].debit
  }

  function Credits(lines: seq<Line>): nat {
    if lines == [] then 0 else Credits(lines[..|lines| - 1]) + lines[|lines| - 1].credit
  }

  /** Any choice of lines by account and dimension tags. */
  type Selector = (nat, Tags) -> bool

  function Signed(line: Line): int {
    line.debit - line.credit
  }

  function NetOfLine(line: Line, pick: Selector): int {
    if pick(line.account, line.tags) then Signed(line) else 0
  }

  /** Debits minus credits of the selected lines. */
  function Net(lines: seq<Line>, pick: Selector): int {
    if lines == [] then 0 else Net(lines[..|lines| - 1], pick) + NetOfLine(lines[|lines| - 1], pick)
  }

  function NetOfEntries(entries: seq<Entry>, pick: Selector): int {
    if entries == [] then 0
    else NetOfEntries(entries[..|entries| - 1], pick) + Net(entries[|entries| - 1].lines, pick)
  }

  // ------------------------------------------------------------ correctness

  predicate OneSided(line: Line) {
    (line.debit > 0 && line.credit == 0) || (line.credit > 0 && line.debit == 0)
  }

  ghost predicate Balanced(lines: seq<Line>) {
    && |lines| >= 2
    && Debits(lines) == Credits(lines)
    && forall i :: 0 <= i < |lines| ==> OneSided(lines[i])
  }

  /** Swaps the sides of a line and keeps its account and tags. */
  predicate Mirrors(mirror: Line, line: Line) {
    mirror.account == line.account && mirror.tags == line.tags
    && mirror.debit == line.credit && mirror.credit == line.debit
  }

  ghost predicate MirrorsAll(mirror: seq<Line>, lines: seq<Line>) {
    |mirror| == |lines| && forall i :: 0 <= i < |lines| ==> Mirrors(mirror[i], lines[i])
  }

  /** Lines and their mirror cancel per account and per dimension tag. */
  lemma {:induction false} MirrorCancels(mirror: seq<Line>, lines: seq<Line>, pick: Selector)
    requires MirrorsAll(mirror, lines)
    ensures Net(mirror, pick) == -Net(lines, pick)
    ensures Debits(mirror) == Credits(lines) && Credits(mirror) == Debits(lines)
  {
    if lines != [] {
      MirrorCancels(mirror[..|mirror| - 1], lines[..|lines| - 1], pick);
    }
  }

  lemma MirrorBalanced(mirror: seq<Line>, lines: seq<Line>)
    requires MirrorsAll(mirror, lines) && Balanced(lines)
    ensures Balanced(mirror)
  {
    MirrorCancels(mirror, lines, (a, t) => true);
  }

  /** Selecting every line of a balanced entry nets to zero. */
  lemma {:induction false} NetAll(lines: seq<Line>, pick: Selector)
    requires forall i :: 0 <= i < |lines| ==> pick(lines[i].account, lines[i].tags)
    ensures Net(lines, pick) == Debits(lines) - Credits(lines)
  {
    if lines != [] {
      NetAll(lines[..|lines| - 1], pick);
    }
  }
}
