/**
 * Payments, refunds and the outbox rows they write in the same transaction
 * (payment-creation, payment-approval and payment-refunds services, and the
 * re-enqueue of accounting-financial-integrity.service.ts), and the requests
 * that write no row: processor reports, status changes by an administrator,
 * QR payments and reservation refunds (payment-webhook, payment-status,
 * qr-payment-processing and reservation-refund services).
 */
module Payments {
  import opened Prelude
  import opened Money
  import opened Outbox

  datatype PaymentStatus = PENDING | PROCESSING | APPROVED | REJECTED | FAILED | REFUNDED | REVERSED | DISPUTED

  datatype PaymentType =
    | RENT | DEPOSIT | LATE_FEE | UTILITY | HOA_FEE | PET_FEE | PARKING_FEE | APPLICATION_FEE | MAINTENANCE_FEE | OTHER

  datatype AccountingStatus = NotPosted | PendingPosting | AccountingPosted

  /**
   * The identifier of a payment is its position plus one. A deleted payment keeps
   * its place and what it was, and its row and those of its refunds are gone.
   * Dates are DATE texts.
   */
  datatype Payment = Payment(
    contractId: Option<int>, reservationId: Option<int>, propertyId: int, amount: nat, kind: PaymentType, date: string,
    status: PaymentStatus, approvedBy: Option<int>, accounting: AccountingStatus, journalEntryId: Option<nat>,
    deleted: bool)

  datatype Refund = Refund(paymentId: nat, amount: nat, date: string, posted: bool, journalEntryId: Option<nat>)

  datatype Desk = Desk(payments: seq<Payment>, refunds: seq<Refund>, outbox: seq<OutboxRow>)

  datatype NewPayment = NewPayment(
    contractId: Option<int>, reservationId: Option<int>, propertyId: int, amount: real, kind: PaymentType, date: string)

  datatype PaymentError = BadAmount | SplitFailed | NoSuchPayment | WrongStatus(found: PaymentStatus) | ExceedsPayment

  datatype Reply = Reply(desk: Desk, result: Result<nat, PaymentError>)

  const APPROVED_EVENT := "payment.approved"
  const REFUND_EVENT := "payment.refund.created"

  function PaymentKey(id: nat): EventKey {
    EventKey(APPROVED_EVENT, "payment", DecimalText(id))
  }

  function RefundKey(id: nat): EventKey {
    EventKey(REFUND_EVENT, "payment_refund", DecimalText(id))
  }

  // -------------------------------------------------------------- operations

  /** The smallest amount the request validation lets through. */
  predicate AmountAccepted(amount: real) {
    amount >= 0.01
  }

  function StoredAmount(amount: real): (cents: nat)
    requires AmountAccepted(amount)
    ensures cents >= 1
    ensures amount * 100.0 - 0.5 < cents as real <= amount * 100.0 + 0.5
  {
    HalfUpCharacterised(amount * 100.0, ToCents(amount));
    HalfUpMonotone(1.0, amount * 100.0);
    HalfUpExact(1);
    ToCents(amount)
  }

  function PaymentRow(input: NewPayment, status: PaymentStatus, admin: Option<int>): Payment
    requires AmountAccepted(input.amount)
  {
    Payment(input.contractId, input.reservationId, input.propertyId, StoredAmount(input.amount), input.kind, input.date, status,
            if status == APPROVED then admin else None,
            if status == APPROVED then PendingPosting else NotPosted, None, false)
  }

  /** The row holds what was asked, in whole cents, and is to be posted exactly if it is approved. */
  predicate Stores(p: Payment, input: NewPayment, status: PaymentStatus) {
    && p.contractId == input.contractId && p.reservationId == input.reservationId && p.propertyId == input.propertyId
    && p.kind == input.kind && p.date == input.date && p.status == status && !p.deleted && p.journalEntryId.None?
    && input.amount * 100.0 - 0.5 < p.amount as real <= input.amount * 100.0 + 0.5
    && p.accounting == if status == APPROVED then PendingPosting else NotPosted
  }

  function Create(d: Desk, input: NewPayment): Reply {
    if !AmountAccepted(input.amount) then Reply(d, Err(BadAmount))
    else Reply(d.(payments := d.payments + [PaymentRow(input, PENDING, None)]), Ok(|d.payments| + 1))
  }

  /** An administrator may create a payment in any status; only APPROVED is enqueued. */
  function CreateAsAdmin(d: Desk, input: NewPayment, status: PaymentStatus, admin: int): Reply {
    if !AmountAccepted(input.amount) then Reply(d, Err(BadAmount))
    else
      var id := |d.payments| + 1;
      Reply(d.(payments := d.payments + [PaymentRow(input, status, Some(admin))],
               outbox := if status == APPROVED then Enqueue(d.outbox, PaymentKey(id), id) else d.outbox),
            Ok(id))
  }

  predicate Created(d: Desk, id: int) {
    1 <= id <= |d.payments|
  }

  predicate Exists(d: Desk, id: int) {
    Created(d, id) && !d.payments[id - 1].deleted
  }

  predicate Decidable(status: PaymentStatus) {
    status == PENDING || status == PROCESSING
  }

  function Approve(d: Desk, id: int, admin: int): Reply {
    if !Exists(d, id) then Reply(d, Err(NoSuchPayment))
    else
      var p := d.payments[id - 1];
      if !Decidable(p.status) then Reply(d, Err(WrongStatus(p.status)))
      else
        var approved := p.(status := APPROVED, approvedBy := Some(admin), accounting := PendingPosting, journalEntryId := None);
        Reply(d.(payments := d.payments[id - 1 := approved], outbox := Enqueue(d.outbox, PaymentKey(id), id)), Ok(id))
  }

  function Reject(d: Desk, id: int, admin: int): Reply {
    if !Exists(d, id) then Reply(d, Err(NoSuchPayment))
    else
      var p := d.payments[id - 1];
      if !Decidable(p.status) then Reply(d, Err(WrongStatus(p.status)))
      else Reply(d.(payments := d.payments[id - 1 := p.(status := REJECTED, approvedBy := Some(admin))]), Ok(id))
  }

  /** Sum of the refunds of a payment. */
  function RefundTotal(refunds: seq<Refund>, id: int): nat {
    if refunds == [] then 0
    else
      var last := refunds[|refunds| - 1];
      RefundTotal(refunds[..|refunds| - 1], id) + if last.paymentId == id then last.amount else 0
  }

  function CreateRefund(d: Desk, id: int, amount: real, date: string): Reply {
    if !AmountAccepted(amount) then Reply(d, Err(BadAmount))
    else if !Exists(d, id) then Reply(d, Err(NoSuchPayment))
    else
      var p := d.payments[id - 1];
      var total := RefundTotal(d.refunds, id) + StoredAmount(amount);
      if p.status != APPROVED then Reply(d, Err(WrongStatus(p.status)))
      else if total > p.amount then Reply(d, Err(ExceedsPayment))
      else
        var refundId := |d.refunds| + 1;
        Reply(Desk(if total == p.amount then d.payments[id - 1 := p.(status := REFUNDED)] else d.payments,
                   d.refunds + [Refund(id, StoredAmount(amount), date, false, None)],
                   Enqueue(d.outbox, RefundKey(refundId), refundId)),
              Ok(refundId))
  }

  /** The status changes a payment processor may report. */
  predicate WebhookAllows(from: PaymentStatus, to: PaymentStatus) {
    match to
    case PROCESSING => from == PENDING
    case APPROVED => from == PENDING || from == PROCESSING || from == DISPUTED
    case REJECTED => from == PENDING || from == PROCESSING
    case FAILED => from == PENDING || from == PROCESSING
    case REFUNDED => from == APPROVED
    case REVERSED => from == APPROVED || from == DISPUTED
    case DISPUTED => from == APPROVED
    case PENDING => false
  }

  /** A processor report moves the status alone: it writes no outbox row. */
  function Webhook(d: Desk, id: int, status: PaymentStatus): Desk {
    if Exists(d, id) && WebhookAllows(d.payments[id - 1].status, status)
    then d.(payments := d.payments[id - 1 := d.payments[id - 1].(status := status)])
    else d
  }

  /** The integrity job enqueues again an approved payment that is not marked posted. */
  function Reprocess(d: Desk, id: int): Desk {
    if Exists(d, id) && d.payments[id - 1].status == APPROVED && d.payments[id - 1].accounting != AccountingPosted
    then d.(outbox := Enqueue(d.outbox, PaymentKey(id), id))
    else d
  }

  /** The bank confirms a QR code: the payment is approved on insertion, without an outbox row. */
  function CreateQr(d: Desk, input: NewPayment): Desk {
    if !AmountAccepted(input.amount) then d
    else d.(payments := d.payments + [PaymentRow(input, APPROVED, None).(accounting := NotPosted)])
  }

  /** The status changes an administrator may request, besides approval. */
  predicate PatchAllows(from: PaymentStatus, to: PaymentStatus) {
    match from
    case PENDING => to == PROCESSING || to == REJECTED || to == FAILED
    case PROCESSING => to == FAILED
    case APPROVED => to == REFUNDED || to == REVERSED || to == DISPUTED
    case DISPUTED => to == REVERSED
    case _ => false
  }

  /** What the request checks on the row it read; the write comes later and checks nothing. */
  predicate PatchAccepted(d: Desk, id: int, to: PaymentStatus) {
    to != APPROVED && Exists(d, id) && (d.payments[id - 1].status == to || PatchAllows(d.payments[id - 1].status, to))
  }

  function WriteStatus(d: Desk, id: int, status: PaymentStatus, admin: int): Desk {
    if Exists(d, id) then d.(payments := d.payments[id - 1 := d.payments[id - 1].(status := status, approvedBy := Some(admin))])
    else d
  }

  /** The statuses in which a request to delete is accepted. */
  predicate Deletable(status: PaymentStatus) {
    status != APPROVED && status != PROCESSING
  }

  /**
   * Removes a payment and, by cascade, its refunds. The request reads the status
   * in a statement before, so the payment may be in any status by now.
   */
  function Delete(d: Desk, id: int): Desk {
    if Exists(d, id) then d.(payments := d.payments[id - 1 := d.payments[id - 1].(deleted := true)]) else d
  }

  predicate OfReservation(p: Payment, reservationId: int) {
    p.reservationId == Some(reservationId) && p.status == APPROVED && !p.deleted
  }

  /**
   * One refund of a cancelled or completed reservation: whatever was refunded
   * before, the payment becomes REFUNDED, and nothing is enqueued.
   */
  function InsertRefund(d: Desk, id: int, cents: nat, date: string): Desk {
    if Exists(d, id) && d.payments[id - 1].reservationId.Some? && d.payments[id - 1].status == APPROVED && cents > 0
    then d.(payments := d.payments[id - 1 := d.payments[id - 1].(status := REFUNDED)],
            refunds := d.refunds + [Refund(id, cents, date, false, None)])
    else d
  }
}
