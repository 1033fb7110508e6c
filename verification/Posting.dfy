/**
 * The journal entries built for a payment and for a refund
 * (accounting-payment-posting and accounting-payment-refund-posting services).
 */
module Posting {
  import opened Prelude
  import opened Money
  import opened Payments
  import J = Journal
  import opened Ledger
  import opened Periods
  import L = LedgerRuns

  const CASH := "1100"
  const PAYMENTS := "payments"
  const REFUNDS := "payment_refunds"

  function IncomeAccount(kind: PaymentType): (code: string)
    ensures code != CASH
  {
    match kind
    case RENT => "4000"
    case LATE_FEE => "4100"
    case DEPOSIT => "2200"
    case _ => "4300"
  }

  function KindText(kind: PaymentType): string {
    match kind
    case RENT => "RENT" case DEPOSIT => "DEPOSIT" case LATE_FEE => "LATE_FEE" case UTILITY => "UTILITY"
    case HOA_FEE => "HOA_FEE" case PET_FEE => "PET_FEE" case PARKING_FEE => "PARKING_FEE"
    case APPLICATION_FEE => "APPLICATION_FEE" case MAINTENANCE_FEE => "MAINTENANCE_FEE" case OTHER => "OTHER"
  }

  function Amount(cents: nat): real {
    cents as real / 100.0
  }

  /** A stored amount goes to the ledger and back without losing a cent. */
  lemma AmountRoundTrip(cents: nat)
    ensures ToCents(Amount(cents)) == cents
  {
    HalfUpExact(cents);
    assert Amount(cents) * 100.0 == cents as real;
  }

  function DateOnly(text: string): string {
    if |text| > 10 then text[..10] else text
  }

  function LineTags(p: Payment, id: nat): J.Tags {
    J.UNTAGGED.(propertyId := Some(p.propertyId), contractId := p.contractId, paymentId := Some(id))
  }

  /** Cash in, income or deposit out. */
  function PaymentEntry(p: Payment, id: nat): EntryInput {
    EntryInput(DateOnly(p.date), "Posteo de pago aprobado #" + DecimalText(id), Some(PAYMENTS), Some(DecimalText(id)), J.Cash,
      [LineInput(CASH, Amount(p.amount), 0.0, LineTags(p, id), Some("Cobro recibido")),
       LineInput(IncomeAccount(p.kind), 0.0, Amount(p.amount), LineTags(p, id), Some("Ingreso por " + KindText(p.kind)))])
  }

  /** Income or deposit in, cash out, tagged with the refunded payment. */
  function RefundEntry(r: Refund, refundId: nat, p: Payment): EntryInput {
    EntryInput(DateOnly(r.date), "Posteo de reembolso #" + DecimalText(refundId), Some(REFUNDS), Some(DecimalText(refundId)), J.Cash,
      [LineInput(IncomeAccount(p.kind), Amount(r.amount), 0.0, LineTags(p, r.paymentId), Some("Reembolso de " + KindText(p.kind))),
       LineInput(CASH, 0.0, Amount(r.amount), LineTags(p, r.paymentId), Some("Salida por reembolso"))])
  }

  /** The query for a payment requires it to be approved at that moment. */
  function LoadPayment(d: Desk, id: int): Option<EntryInput> {
    if Exists(d, id) && d.payments[id - 1].status == APPROVED && d.payments[id - 1].amount > 0
    then Some(PaymentEntry(d.payments[id - 1], id)) else None
  }

  function LoadRefund(d: Desk, refundId: int): Option<EntryInput> {
    if 1 <= refundId <= |d.refunds| && Exists(d, d.refunds[refundId - 1].paymentId) && d.refunds[refundId - 1].amount > 0
    then
      var r := d.refunds[refundId - 1];
      Some(RefundEntry(r, refundId, d.payments[r.paymentId - 1]))
    else None
  }

  /** What an event of the two payment families has its worker post. */
  function LoadEvent(d: Desk, eventType: string, subject: int): Option<EntryInput> {
    if subject <= 0 then None
    else if eventType == APPROVED_EVENT then LoadPayment(d, subject)
    else if eventType == REFUND_EVENT then LoadRefund(d, subject)
    else None
  }

  function NotedPayment(p: Payment, entryId: nat): Payment {
    p.(accounting := AccountingPosted, journalEntryId := Some(entryId))
  }

  function NotedRefund(r: Refund, entryId: nat): Refund {
    r.(posted := true, journalEntryId := Some(entryId))
  }

  /** The update of the payment or refund row after its entry is in the ledger. */
  function NoteEvent(d: Desk, eventType: string, subject: int, entryId: nat): Desk {
    if eventType == APPROVED_EVENT && Exists(d, subject) then
      d.(payments := d.payments[subject - 1 := NotedPayment(d.payments[subject - 1], entryId)])
    else if eventType == REFUND_EVENT && 1 <= subject <= |d.refunds| && Exists(d, d.refunds[subject - 1].paymentId) then
      d.(refunds := d.refunds[subject - 1 := NotedRefund(d.refunds[subject - 1], entryId)])
    else d
  }

  /** A debit and a credit of the same positive amount make an acceptable entry. */
  lemma TwoLinesAcceptable(a: LineInput, b: LineInput, cents: nat)
    requires cents > 0 && !Blank(a.accountCode) && !Blank(b.accountCode)
    requires a.debit == Amount(cents) && a.credit == 0.0 && b.debit == 0.0 && b.credit == Amount(cents)
    ensures Acceptable([a, b])
  {
    AmountRoundTrip(cents);
    AmountRoundTrip(0);
    assert LineAcceptable(a) && LineAcceptable(b);
    assert [a, b][..1] == [a] && [a][..0] == [];
    assert DebitCents([]) == 0 && CreditCents([]) == 0;
    assert DebitCents([a]) == cents && CreditCents([a]) == 0;
  }

  lemma AccountCodesNotBlank(kind: PaymentType)
    ensures !Blank(CASH) && !Blank(IncomeAccount(kind))
  {
    assert CASH[0] == '1' && (IncomeAccount(kind)[0] == '4' || IncomeAccount(kind)[0] == '2');
    assert !IsSpace(CASH[0]) && !IsSpace(IncomeAccount(kind)[0]);
  }

  /** Both entries pass validation for any positive amount. */
  lemma EntriesAcceptable(p: Payment, id: nat, r: Refund, refundId: nat)
    ensures p.amount > 0 ==> Acceptable(PaymentEntry(p, id).lines)
    ensures r.amount > 0 ==> Acceptable(RefundEntry(r, refundId, p).lines)
  {
    AccountCodesNotBlank(p.kind);
    var a, b := PaymentEntry(p, id).lines, RefundEntry(r, refundId, p).lines;
    if p.amount > 0 { TwoLinesAcceptable(a[0], a[1], p.amount); assert a == [a[0], a[1]]; }
    if r.amount > 0 { TwoLinesAcceptable(b[0], b[1], r.amount); assert b == [b[0], b[1]]; }
  }

  // ------------------------------------------------- what an entry records

  /** A debit of an account and a credit of another, in cents, both with these tags. */
  predicate Transfers(chart: seq<J.Account>, e: J.Entry, from: string, to: string, cents: nat, tags: J.Tags) {
    && |e.lines| == 2 && e.lines[0].account < |chart| && e.lines[1].account < |chart|
    && chart[e.lines[0].account].code == to && e.lines[0].debit == cents && e.lines[0].credit == 0 && e.lines[0].tags == tags
    && chart[e.lines[1].account].code == from && e.lines[1].debit == 0 && e.lines[1].credit == cents && e.lines[1].tags == tags
  }

  /** The entry of the source is dated on the day its text begins with. */
  predicate Dated(e: J.Entry, date: string, sourceModule: string, id: nat) {
    && |date| >= 10 && J.Prints(e.date, date[..10])
    && e.sourceModule == Some(sourceModule) && e.sourceId == Some(DecimalText(id))
  }

  lemma DateOnlyPrints(d: J.Civil, text: string)
    requires J.Prints(d, DateOnly(text))
    ensures |text| >= 10 && J.Prints(d, text[..10])
  {
    assert |J.DateText(d)| >= 10;
    if |text| == 10 { assert text[..10] == text; }
  }

  /** A payment moves its amount from its income or deposit account to cash, with its own tags and date. */
  lemma PaymentRecorded(chart: seq<J.Account>, e: J.Entry, p: Payment, id: nat)
    requires L.Holds(chart, e, PaymentEntry(p, id))
    ensures Dated(e, p.date, "payments", id)
    ensures Transfers(chart, e, IncomeAccount(p.kind), "1100", p.amount, LineTags(p, id))
    ensures var tags := LineTags(p, id);
            tags.paymentId == Some(id) && tags.propertyId == Some(p.propertyId) && tags.contractId == p.contractId
  {
    DateOnlyPrints(e.date, p.date);
    assert L.HoldsLine(chart, e.lines[0], PaymentEntry(p, id).lines[0]);
    assert L.HoldsLine(chart, e.lines[1], PaymentEntry(p, id).lines[1]);
    AmountRoundTrip(p.amount);
    AmountRoundTrip(0);
  }

  /** A refund takes its payment's posting back, with the tag of the payment. */
  lemma RefundRecorded(chart: seq<J.Account>, e: J.Entry, r: Refund, refundId: nat, p: Payment)
    requires L.Holds(chart, e, RefundEntry(r, refundId, p))
    ensures Dated(e, r.date, "payment_refunds", refundId)
    ensures Transfers(chart, e, "1100", IncomeAccount(p.kind), r.amount, LineTags(p, r.paymentId))
  {
    DateOnlyPrints(e.date, r.date);
    assert L.HoldsLine(chart, e.lines[0], RefundEntry(r, refundId, p).lines[0]);
    assert L.HoldsLine(chart, e.lines[1], RefundEntry(r, refundId, p).lines[1]);
    AmountRoundTrip(r.amount);
    AmountRoundTrip(0);
  }
}
