/**
 * Owner statements: the split of a month's rent, and the journal entries that
 * record and pay out the owner's share (owner-statements.service.ts,
 * billing-cron.service.ts, accounting-owner-statement-posting.service.ts).
 */
module OwnerStatements {
  import opened Prelude
  import opened Money
  import opened Journal
  import opened Periods
  import opened Ledger
  import Posting

  /** Amounts are stored as whole cents, of either sign. */
  datatype Statement = Statement(
    ownerId: int, propertyId: int, unitId: Option<int>, year: int, month: int,
    gross: int, maintenance: int, commission: int, net: int)

  datatype StatementError = NoSuchStatement | BadAmounts | DoesNotBalance | NothingToTransfer | Refused(cause: LedgerError)

  // -------------------------------------------------------------- the split

  function Commission(gross: real, pct: real): int {
    PercentOf(gross * 100.0, pct)
  }

  function NetAmount(gross: real, maintenance: int, pct: real): int {
    HalfUp(gross * 100.0 - (maintenance + Commission(gross, pct)) as real)
  }

  function Split(ownerId: int, propertyId: int, year: int, month: int, gross: real, maintenance: int, pct: real): Statement {
    Statement(ownerId, propertyId, None, year, month,
              ToCents(gross), maintenance, Commission(gross, pct), NetAmount(gross, maintenance, pct))
  }

  predicate Adds(s: Statement) {
    s.gross == s.maintenance + s.commission + s.net
  }

  /**
   * The stored parts add up to the stored gross exactly when the gross is not
   * half a cent off with a net of the other sign; whole cents always do.
   */
  lemma SplitAddsIff(ownerId: int, propertyId: int, year: int, month: int, gross: real, maintenance: int, pct: real)
    ensures var s := Split(ownerId, propertyId, year, month, gross, maintenance, pct);
            Adds(s) <==>
            !(IsTie(gross * 100.0) && (gross >= 0.0) != (gross * 100.0 >= (maintenance + s.commission) as real))
  {
    ShiftIff(gross * 100.0, maintenance + Commission(gross, pct));
  }

  /** 10.005 gross, 20.00 maintenance and no commission: 10.01 is not 20.00 less 10.00. */
  lemma HalfCentIsLost()
    ensures var s := Split(1, 2, 2024, 1, 10.005, 2000, 0.0);
            s.gross == 1001 && s.maintenance == 2000 && s.commission == 0 && s.net == -1000 && !Adds(s)
  {
    HalfUpCharacterised(1000.5, 1001);
    HalfUpCharacterised(-999.5, -1000);
    HalfUpExact(0);
  }

  /** Whole cents at 0 to 100 percent: nothing is lost and the commission is a fair share. */
  lemma SplitOfCents(ownerId: int, propertyId: int, year: int, month: int, cents: nat, maintenance: int, pct: real)
    requires 0.0 <= pct <= 100.0
    ensures var s := Split(ownerId, propertyId, year, month, Posting.Amount(cents), maintenance, pct);
            var exact := cents as real * pct / 100.0;
            && s.gross == cents && Adds(s)
            && 0 <= s.commission <= s.gross
            && exact - 0.5 < s.commission as real <= exact + 0.5
  {
    var gross := Posting.Amount(cents);
    assert gross * 100.0 == cents as real;
    HalfUpExact(cents);
    PercentBounds(cents as real, pct);
    assert !IsTie(cents as real) by {
      FloorIs(cents as real + 0.5, cents);
    }
    SplitAddsIff(ownerId, propertyId, year, month, gross, maintenance, pct);
  }

  // ----------------------------------------------------------- the entries

  const RENT_INCOME := "4000"
  const COMMISSION_INCOME := "4200"
  const OWNER_PAYABLE := "2100"
  const MAINTENANCE := "5200"
  const STATEMENTS := "owner_statements"
  const TRANSFERS := "owner_statement_transfers"

  /** A stored amount as the decimal the ledger receives. */
  function Decimal(cents: int): real {
    cents as real / 100.0
  }

  function StatementTags(s: Statement): Tags {
    UNTAGGED.(propertyId := Some(s.propertyId), unitId := s.unitId, ownerId := Some(s.ownerId))
  }

  function DebitLine(s: Statement, code: string, cents: int, memo: string): LineInput {
    LineInput(code, Decimal(cents), 0.0, StatementTags(s), Some(memo))
  }

  function CreditLine(s: Statement, code: string, cents: int, memo: string): LineInput {
    LineInput(code, 0.0, Decimal(cents), StatementTags(s), Some(memo))
  }

  function GrossLine(s: Statement): LineInput {
    DebitLine(s, RENT_INCOME, s.gross, "Reclasificacion de renta para liquidacion propietario")
  }

  function CommissionLine(s: Statement): LineInput {
    CreditLine(s, COMMISSION_INCOME, s.commission, "Comision de administracion")
  }

  function PayableLine(s: Statement): LineInput {
    CreditLine(s, OWNER_PAYABLE, s.net, "Por pagar a propietario")
  }

  function MaintenanceLine(s: Statement): LineInput {
    CreditLine(s, MAINTENANCE, s.maintenance, "Recupero de mantenimiento deducido al propietario")
  }

  function If(condition: bool, line: LineInput): seq<LineInput> {
    if condition then [line] else []
  }

  /** Gross against the parts that are positive. */
  function GeneratedLines(s: Statement): seq<LineInput> {
    [GrossLine(s)]
    + If(s.commission > 0, CommissionLine(s)) + If(s.net > 0, PayableLine(s)) + If(s.maintenance > 0, MaintenanceLine(s))
  }

  function TransferLines(s: Statement): seq<LineInput> {
    [DebitLine(s, OWNER_PAYABLE, s.net, "Pago de saldo a propietario"),
     CreditLine(s, Posting.CASH, s.net, "Salida de caja/banco a propietario")]
  }

  function GeneratedFault(s: Statement): Option<StatementError> {
    if s.gross <= 0 || s.net < 0 then Some(BadAmounts)
    else if !Adds(s) then Some(DoesNotBalance)
    else None
  }

  function Pad2(text: string): string {
    if |text| == 1 then "0" + text else text
  }

  function IntText(n: int): string {
    if n < 0 then "-" + DecimalText(-n) else DecimalText(n)
  }

  function PeriodDate(s: Statement): string {
    IntText(s.year) + "-" + Pad2(IntText(s.month)) + "-01"
  }

  function GeneratedSource(id: nat): string {
    "generated:" + DecimalText(id)
  }

  function GeneratedEntry(s: Statement, id: nat): EntryInput {
    EntryInput(PeriodDate(s), "Posteo de liquidacion propietario #" + DecimalText(id),
               Some(STATEMENTS), Some(GeneratedSource(id)), Cash, GeneratedLines(s))
  }

  function TransferEntry(s: Statement, id: nat, today: string): EntryInput {
    EntryInput(today, "Transferencia a propietario statement #" + DecimalText(id),
               Some(TRANSFERS), Some(DecimalText(id)), Cash, TransferLines(s))
  }

  // ------------------------------------------------------ accepted entries

  lemma LineCents(s: Statement, code: string, cents: nat, memo: string)
    ensures ToCents(DebitLine(s, code, cents, memo).debit) == cents && ToCents(DebitLine(s, code, cents, memo).credit) == 0
    ensures ToCents(CreditLine(s, code, cents, memo).debit) == 0 && ToCents(CreditLine(s, code, cents, memo).credit) == cents
    ensures cents > 0 && !Blank(code) ==>
              LineAcceptable(DebitLine(s, code, cents, memo)) && LineAcceptable(CreditLine(s, code, cents, memo))
  {
    Posting.AmountRoundTrip(cents);
    Posting.AmountRoundTrip(0);
  }

  lemma Appended(lines: seq<LineInput>, line: LineInput)
    ensures DebitCents(lines + [line]) == DebitCents(lines) + ToCents(line.debit)
    ensures CreditCents(lines + [line]) == CreditCents(lines) + ToCents(line.credit)
  {
    assert (lines + [line])[..|lines|] == lines;
  }

  lemma CodesNotBlank()
    ensures !Blank(RENT_INCOME) && !Blank(COMMISSION_INCOME) && !Blank(OWNER_PAYABLE) && !Blank(MAINTENANCE) && !Blank(Posting.CASH)
  {
    assert !IsSpace(RENT_INCOME[0]) && !IsSpace(COMMISSION_INCOME[0]) && !IsSpace(OWNER_PAYABLE[0]) && !IsSpace(MAINTENANCE[0])
      && !IsSpace(Posting.CASH[0]);
  }

  /** One optional credit line: what it adds to the totals, and that it is sound. */
  lemma OptionalCredit(s: Statement, lines: seq<LineInput>, code: string, cents: int, memo: string)
    requires !Blank(code) && forall i :: 0 <= i < |lines| ==> LineAcceptable(lines[i])
    ensures var more := lines + If(cents > 0, CreditLine(s, code, cents, memo));
            && DebitCents(more) == DebitCents(lines)
            && CreditCents(more) == CreditCents(lines) + Max(cents, 0)
            && forall i :: 0 <= i < |more| ==> LineAcceptable(more[i])
  {
    if cents > 0 {
      LineCents(s, code, cents, memo);
      Appended(lines, CreditLine(s, code, cents, memo));
    } else {
      assert lines + [] == lines;
    }
  }

  /** Totals and soundness of the built lines, for every statement with a positive gross. */
  lemma GeneratedTotals(s: Statement)
    requires s.gross > 0
    ensures var lines := GeneratedLines(s);
            && DebitCents(lines) == s.gross
            && CreditCents(lines) == Max(s.commission, 0) + Max(s.net, 0) + Max(s.maintenance, 0)
            && forall i :: 0 <= i < |lines| ==> LineAcceptable(lines[i])
  {
    CodesNotBlank();
    LineCents(s, RENT_INCOME, s.gross, GrossLine(s).memo.value);
    hide LineAcceptable, ToCents, Blank;
    var first := [GrossLine(s)];
    Appended([], GrossLine(s));
    assert [] + first == first;
    OptionalCredit(s, first, COMMISSION_INCOME, s.commission, CommissionLine(s).memo.value);
    var second := first + If(s.commission > 0, CommissionLine(s));
    OptionalCredit(s, second, OWNER_PAYABLE, s.net, PayableLine(s).memo.value);
    var third := second + If(s.net > 0, PayableLine(s));
    OptionalCredit(s, third, MAINTENANCE, s.maintenance, MaintenanceLine(s).memo.value);
  }

  /**
   * A statement that passes the amount checks builds an entry the ledger accepts
   * exactly when neither its commission nor its deduction is negative.
   */
  lemma GeneratedAcceptableIff(s: Statement)
    requires GeneratedFault(s).None?
    ensures Acceptable(GeneratedLines(s)) <==> s.commission >= 0 && s.maintenance >= 0
  {
    GeneratedTotals(s);
  }

  /** Every split of positive whole cents that leaves the owner no debt is posted. */
  lemma SplitPosts(ownerId: int, propertyId: int, year: int, month: int, cents: nat, maintenance: nat, pct: real)
    requires cents > 0 && 0.0 <= pct <= 100.0
    ensures var s := Split(ownerId, propertyId, year, month, Posting.Amount(cents), maintenance, pct);
            (GeneratedFault(s).None? <==> s.net >= 0) && (s.net >= 0 ==> Acceptable(GeneratedLines(s)))
  {
    SplitOfCents(ownerId, propertyId, year, month, cents, maintenance, pct);
    var s := Split(ownerId, propertyId, year, month, Posting.Amount(cents), maintenance, pct);
    if s.net >= 0 { GeneratedAcceptableIff(s); }
  }

  lemma TransferAcceptable(s: Statement)
    requires s.net > 0
    ensures Acceptable(TransferLines(s))
  {
    CodesNotBlank();
    var a, b := TransferLines(s)[0], TransferLines(s)[1];
    Posting.TwoLinesAcceptable(a, b, s.net);
  }

  // ------------------------------------------------------- the entry's date

  /** The entry of a valid period is dated on the first day of its month. */
  lemma PeriodDateReads(s: Statement)
    requires ValidYearMonth(s.year, s.month)
    ensures IsDateText(PeriodDate(s)) && ReadCivil(PeriodDate(s)) == Civil(s.year, s.month, 1)
  {
    DecimalRead(s.year);
    DecimalRead(s.month);
    assert DecimalText(1) == "1";
    assert Zeros(1) == "0" && Zeros(0) == "";
    assert PeriodDate(s) == DateText(Civil(s.year, s.month, 1));
    PrintedDateReads(Civil(s.year, s.month, 1));
  }
}
