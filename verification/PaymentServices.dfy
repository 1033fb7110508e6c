/**
 * The payment requests as transactions over the tables
 * (payment-creation, payment-approval, payment-refunds, payment-status and
 * qr-payment-processing services). The split
 * of an approved payment among its receivers is not part of this model except
 * that it may fail, which rolls the whole request back.
 */
module PaymentServices {
  import opened Prelude
  import opened Money
  import O = Outbox
  import opened Payments
  import PS = PaymentSystem
  import opened TenantTables
  import opened OutboxServices

  class PaymentService {
    const db: Tables
    const accountingOutbox: AccountingOutboxService

    constructor (db: Tables)
      ensures this.db == db && Valid()
    {
      this.db := db;
      accountingOutbox := new AccountingOutboxService(db);
    }

    predicate Valid() {
      accountingOutbox.db == db
    }

    method CreatePayment(input: NewPayment) returns (r: Result<nat, PaymentError>)
      requires Valid()
      modifies db`payments
      ensures Reply(db.GetDesk(), r) == Create(old(db.GetDesk()), input)
      ensures r.Ok? <==> input.amount >= 0.01
      ensures r.Ok? ==>
                && r.value == |db.payments| && db.payments == old(db.payments) + [db.payments[r.value - 1]]
                && Stores(db.payments[r.value - 1], input, PENDING)
    {
      if !AmountAccepted(input.amount) {
        return Err(BadAmount);
      }
      db.payments := db.payments + [PaymentRow(input, PENDING, None)];
      return Ok(|db.payments|);
    }

    /** Row and event are committed together, or neither is. */
    method CreatePaymentAsAdmin(input: NewPayment, status: PaymentStatus, admin: int, splitFails: bool)
      returns (r: Result<nat, PaymentError>)
      requires Valid()
      modifies db`payments, db`outbox
      ensures !(splitFails && status == APPROVED) ==> Reply(db.GetDesk(), r) == CreateAsAdmin(old(db.GetDesk()), input, status, admin)
      ensures r.Err? ==> db.GetDesk() == old(db.GetDesk())
      ensures r.Ok? <==> input.amount >= 0.01 && !(splitFails && status == APPROVED)
      ensures r.Ok? ==>
                && r.value == |db.payments| && db.payments == old(db.payments) + [db.payments[r.value - 1]]
                && Stores(db.payments[r.value - 1], input, status)
    {
      if !AmountAccepted(input.amount) {
        return Err(BadAmount);
      }
      var paymentsAtStart := db.payments;
      var id := |db.payments| + 1;
      db.payments := db.payments + [PaymentRow(input, status, Some(admin))];
      if status == APPROVED {
        if splitFails {
          db.payments := paymentsAtStart;
          return Err(SplitFailed);
        }
        accountingOutbox.Enqueue(PaymentKey(id), id);
      }
      return Ok(id);
    }

    method ApprovePayment(id: int, admin: int, splitFails: bool) returns (r: Result<nat, PaymentError>)
      requires Valid()
      modifies db`payments, db`outbox
      ensures !splitFails ==> Reply(db.GetDesk(), r) == Approve(old(db.GetDesk()), id, admin)
      ensures r.Err? ==> db.GetDesk() == old(db.GetDesk())
      ensures r.Ok? <==>
              && !splitFails && 1 <= id <= |old(db.payments)| && !old(db.payments)[id - 1].deleted
              && (old(db.payments)[id - 1].status == PENDING || old(db.payments)[id - 1].status == PROCESSING)
      ensures r.Ok? ==> db.payments[id - 1].status == APPROVED && db.payments[id - 1].accounting == PendingPosting
    {
      if !Exists(db.GetDesk(), id) {
        return Err(NoSuchPayment);
      }
      var paymentsAtStart := db.payments;
      var payment := db.payments[id - 1];
      if payment.status != PENDING && payment.status != PROCESSING {
        return Err(WrongStatus(payment.status));
      }
      db.payments := db.payments[id - 1 :=
        payment.(status := APPROVED, approvedBy := Some(admin), accounting := PendingPosting, journalEntryId := None)];
      if splitFails {
        db.payments := paymentsAtStart;
        return Err(SplitFailed);
      }
      accountingOutbox.Enqueue(PaymentKey(id), id);
      return Ok(id);
    }

    method RejectPayment(id: int, admin: int) returns (r: Result<nat, PaymentError>)
      requires Valid()
      modifies db`payments
      ensures Reply(db.GetDesk(), r) == Reject(old(db.GetDesk()), id, admin)
      ensures r.Ok? <==>
              && 1 <= id <= |old(db.payments)| && !old(db.payments)[id - 1].deleted
              && (old(db.payments)[id - 1].status == PENDING || old(db.payments)[id - 1].status == PROCESSING)
      ensures r.Ok? ==> db.payments[id - 1].status == REJECTED
    {
      if !Exists(db.GetDesk(), id) {
        return Err(NoSuchPayment);
      }
      var payment := db.payments[id - 1];
      if payment.status != PENDING && payment.status != PROCESSING {
        return Err(WrongStatus(payment.status));
      }
      db.payments := db.payments[id - 1 := payment.(status := REJECTED, approvedBy := Some(admin))];
      return Ok(id);
    }

    /** Refund, event and, when the payment is used up, its status change together. */
    method CreatePaymentRefund(paymentId: int, amount: real, date: string) returns (r: Result<nat, PaymentError>)
      requires Valid()
      modifies db`payments, db`refunds, db`outbox
      ensures Reply(db.GetDesk(), r) == CreateRefund(old(db.GetDesk()), paymentId, amount, date)
      ensures r.Err? ==> db.GetDesk() == old(db.GetDesk())
      ensures r.Ok? <==>
              && amount >= 0.01 && 1 <= paymentId <= |old(db.payments)| && !old(db.payments)[paymentId - 1].deleted
              && old(db.payments)[paymentId - 1].status == APPROVED
              && RefundTotal(old(db.refunds), paymentId) + StoredAmount(amount) <= old(db.payments)[paymentId - 1].amount
      ensures r.Ok? ==>
              && RefundTotal(db.refunds, paymentId) == RefundTotal(old(db.refunds), paymentId) + StoredAmount(amount) <= db.payments[paymentId - 1].amount
              && (db.payments[paymentId - 1].status == REFUNDED <==> RefundTotal(db.refunds, paymentId) == db.payments[paymentId - 1].amount)
    {
      if !AmountAccepted(amount) {
        return Err(BadAmount);
      }
      if !Exists(db.GetDesk(), paymentId) {
        return Err(NoSuchPayment);
      }
      var payment := db.payments[paymentId - 1];
      if payment.status != APPROVED {
        return Err(WrongStatus(payment.status));
      }
      var alreadyRefunded := RefundTotal(db.refunds, paymentId);
      var refundCents := StoredAmount(amount);
      if alreadyRefunded + refundCents > payment.amount {
        return Err(ExceedsPayment);
      }
      var refundId := |db.refunds| + 1;
      ghost var before := db.refunds;
      db.refunds := db.refunds + [Refund(paymentId, refundCents, date, false, None)];
      assert db.refunds[..|db.refunds| - 1] == before;
      accountingOutbox.Enqueue(RefundKey(refundId), refundId);
      if alreadyRefunded + refundCents == payment.amount {
        db.payments := db.payments[paymentId - 1 := payment.(status := REFUNDED)];
      }
      return Ok(refundId);
    }
  }

  /** Deleting a payment: the status is read first, the row is removed by identifier alone. */
  class PaymentsService {
    const db: Tables

    constructor (db: Tables)
      ensures this.db == db
    {
      this.db := db;
    }

    method DeletePayment(id: int) returns (r: Result<nat, PaymentError>)
      modifies db`payments
      ensures r.Ok? <==>
              && 1 <= id <= |old(db.payments)| && !old(db.payments)[id - 1].deleted
              && old(db.payments)[id - 1].status != APPROVED && old(db.payments)[id - 1].status != PROCESSING
      ensures db.GetDesk() == if r.Ok? then Delete(old(db.GetDesk()), id) else old(db.GetDesk())
      ensures r.Ok? ==> !Exists(db.GetDesk(), id)
      ensures forall other: int :: other != id ==> Exists(db.GetDesk(), other) == Exists(old(db.GetDesk()), other)
    {
      if !Exists(db.GetDesk(), id) {
        return Err(NoSuchPayment);
      }
      var status := db.payments[id - 1].status;
      if status == APPROVED || status == PROCESSING {
        return Err(WrongStatus(status));
      }
      db.payments := db.payments[id - 1 := db.payments[id - 1].(deleted := true)];
      return Ok(id);
    }
  }

  /** A change of status by hand: an unlocked read, then a write by identifier alone. */
  class PaymentStatusService {
    const db: Tables
    const approvals: PaymentService

    constructor (db: Tables)
      ensures this.db == db && Valid()
    {
      this.db := db;
      approvals := new PaymentService(db);
    }

    predicate Valid() {
      approvals.db == db && approvals.Valid()
    }

    method UpdatePaymentStatus(id: int, status: PaymentStatus, admin: int, splitFails: bool) returns (r: Result<nat, PaymentError>)
      requires Valid()
      modifies db`payments, db`outbox
      ensures r.Err? ==> db.GetDesk() == old(db.GetDesk())
      ensures status == APPROVED && !splitFails ==> Reply(db.GetDesk(), r) == Approve(old(db.GetDesk()), id, admin)
      ensures status != APPROVED ==> (r.Ok? <==> PatchAccepted(old(db.GetDesk()), id, status))
      ensures status != APPROVED && r.Ok? ==>
                && db.payments == old(db.payments)[id - 1 := old(db.payments)[id - 1].(status := status, approvedBy := Some(admin))]
                && db.outbox == old(db.outbox)
    {
      if status == APPROVED {
        r := approvals.ApprovePayment(id, admin, splitFails);
        return;
      }
      if !Exists(db.GetDesk(), id) {
        return Err(NoSuchPayment);
      }
      var payment := db.payments[id - 1];
      if payment.status != status && !PatchAllows(payment.status, status) {
        return Err(WrongStatus(payment.status));
      }
      db.payments := db.payments[id - 1 := payment.(status := status, approvedBy := Some(admin))];
      return Ok(id);
    }
  }

  /** A status change that nothing interrupts is a run of its two statements. */
  lemma StatusChangeIsRun(s: PS.System, request: nat, id: int, status: PaymentStatus, admin: int)
    requires request !in s.patches && PatchAccepted(s.desk, id, status)
    ensures PS.Run(s, [PS.ReadStatus(request, id, status, admin), PS.WriteStatus(request)]) ==
            s.(desk := WriteStatus(s.desk, id, status, admin))
  {
    var steps := [PS.ReadStatus(request, id, status, admin), PS.WriteStatus(request)];
    assert steps[..1] == [steps[0]] && steps[..1][..0] == [];
    assert PS.Run(s, steps[..1]) == PS.Apply(PS.Run(s, []), steps[0]);
    assert s.patches[request := PS.Patch(id, status, admin)] - {request} == s.patches;
  }

  /** A QR code and the payment it led to; `known` when its contract or reservation was found. */
  datatype QrCode = QrCode(payment: NewPayment, paymentId: Option<nat>, paid: bool)

  class QrPaymentProcessingService {
    const db: Tables
    var codes: seq<QrCode>

    constructor (db: Tables, codes: seq<QrCode>)
      ensures this.db == db && this.codes == codes
    {
      this.db := db;
      this.codes := codes;
    }

    /** The bank's confirmation, on the locked row of the code: one payment per code, however often it comes. */
    method ProcessQrPayment(k: nat, known: bool) returns (paymentId: Option<nat>)
      requires k < |codes| && AmountAccepted(codes[k].payment.amount)
      modifies this`codes, db`payments
      ensures |codes| == |old(codes)| && codes[k].paymentId == paymentId
      ensures old(codes)[k].paymentId.Some? ==> codes == old(codes) && db.payments == old(db.payments)
      ensures old(codes)[k].paymentId.None? ==>
                && codes == old(codes)[k := old(codes)[k].(paymentId := paymentId, paid := true)]
                && (paymentId.Some? <==> known)
                && db.GetDesk() == (if known then CreateQr(old(db.GetDesk()), old(codes)[k].payment) else old(db.GetDesk()))
                && (known ==> paymentId == Some(|db.payments|) && db.payments[|db.payments| - 1].status == APPROVED)
    {
      var locked := codes[k];
      if locked.paymentId.Some? {
        return locked.paymentId;
      }
      paymentId := None;
      if known {
        db.payments := db.payments + [PaymentRow(locked.payment, APPROVED, None).(accounting := NotPosted)];
        paymentId := Some(|db.payments|);
      }
      codes := codes[k := locked.(paymentId := paymentId, paid := true)];
    }
  }
}
