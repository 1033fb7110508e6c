/**
 * The life of a payment: what the two tables of transitions have in common, and
 * that no request but a late status write takes a payment back
 * (payment-webhook.service.ts, payment-status.service.ts).
 */
module PaymentStatuses {
  import opened Prelude
  import O = Outbox
  import opened Payments
  import L = LedgerRuns
  import Ledger
  import Posting
  import opened PaymentSystem
  import opened OutboxOwnership

  /** Undecided, settled, or over. */
  function Stage(status: PaymentStatus): nat {
    match status
    case PENDING => 0
    case PROCESSING => 1
    case APPROVED => 2
    case DISPUTED => 2
    case _ => 3
  }

  /**
   * An administrator may request what a processor may report, but for the
   * approval, which has its own request, and the rejection of a payment in
   * process.
   */
  lemma TablesAgree(from: PaymentStatus, to: PaymentStatus)
    ensures PatchAllows(from, to) <==> WebhookAllows(from, to) && to != APPROVED && !(from == PROCESSING && to == REJECTED)
    ensures WebhookAllows(from, to) <==>
            || (Stage(from) < 2 && (to == APPROVED || to == REJECTED || to == FAILED))
            || (from == PENDING && to == PROCESSING)
            || (from == APPROVED && (to == REFUNDED || to == REVERSED || to == DISPUTED))
            || (from == DISPUTED && (to == APPROVED || to == REVERSED))
  {
  }

  function StatusOf(s: System, id: nat): PaymentStatus
    requires 1 <= id <= |s.desk.payments|
  {
    s.desk.payments[id - 1].status
  }

  /** The step writes the status a request checked earlier. */
  predicate WritesStatus(s: System, step: Step, id: nat) {
    step.WriteStatus? && step.request in s.patches && s.patches[step.request].id == id
  }

  /** Only a dispute and its settlement keep the stage; everything else moves on. */
  lemma StepAdvances(s: System, step: Step, id: nat)
    requires 1 <= id <= |s.desk.payments| && !WritesStatus(s, step, id)
    ensures |Apply(s, step).desk.payments| >= |s.desk.payments|
    ensures var from, to := StatusOf(s, id), StatusOf(Apply(s, step), id);
            || to == from
            || (Stage(from) < Stage(to) && (to == APPROVED ==> Stage(from) < 2))
            || (from == APPROVED && to == DISPUTED) || (from == DISPUTED && to == APPROVED)
  {
    hide Ledger.Post, L.Apply, Posting.LoadEvent;
  }

  /** The request writes an outbox row under this key. */
  predicate Writes(before: Desk, after: Desk, key: O.EventKey) {
    exists k :: 0 <= k < |after.outbox| && after.outbox[k].key == key && (k >= |before.outbox| || after.outbox[k] != before.outbox[k])
  }

  lemma EnqueueWritesKey(rows: seq<O.OutboxRow>, key: O.EventKey, subject: int)
    ensures var after := O.Enqueue(rows, key, subject);
            forall k :: 0 <= k < |after| && (k >= |rows| || after[k] != rows[k]) ==> after[k].key == key
  {
  }

  /** A request that leaves the outbox as it is writes nothing. */
  lemma WritesEnqueuedKey(s: System, step: Step, key: O.EventKey)
    requires IsRequest(step) && Writes(s.desk, Apply(s, step).desk, key)
    ensures EnqueuedKey(s, step) == Some(key) && Apply(s, step).desk.outbox != s.desk.outbox
  {
    hide O.Enqueue, DecimalText, StoredAmount, L.Apply;
    var rows := s.desk.outbox;
    match step {
      case CreateAsAdmin(_, _, _) => EnqueueWritesKey(rows, PaymentKey(|s.desk.payments| + 1), |s.desk.payments| + 1);
      case Approve(id, _) => if id > 0 { EnqueueWritesKey(rows, PaymentKey(id), id); }
      case Reprocess(id) => if id > 0 { EnqueueWritesKey(rows, PaymentKey(id), id); }
      case CreateRefund(_, _, _) => EnqueueWritesKey(rows, RefundKey(|s.desk.refunds| + 1), |s.desk.refunds| + 1);
      case EnqueueOther(key, subject) => EnqueueWritesKey(rows, key, subject);
      case _ =>
    }
  }

  /** A request enqueues the event of a payment only if it leaves it approved and not marked posted. */
  lemma EnqueuesApproved(s: System, step: Step, id: nat)
    requires IsRequest(step)
    ensures var after := Apply(s, step).desk;
            Writes(s.desk, after, PaymentKey(id)) ==>
              Exists(after, id) && after.payments[id - 1].status == APPROVED && after.payments[id - 1].accounting != AccountingPosted
  {
    hide O.Enqueue, DecimalText, StoredAmount, L.Apply, Writes, PaymentKey, RefundKey;
    if Writes(s.desk, Apply(s, step).desk, PaymentKey(id)) {
      WritesEnqueuedKey(s, step, PaymentKey(id));
      match step {
        case CreateAsAdmin(_, _, _) => KeysApart(id, |s.desk.payments| + 1);
        case Approve(approved, _) => KeysApart(id, approved);
        case Reprocess(again) => KeysApart(id, again);
        case CreateRefund(_, _, _) => KeysApart(id, 0);
        case _ => EventOfPayment(id);
      }
    }
  }

  lemma EventOfPayment(id: nat)
    ensures PaymentKey(id).eventType == APPROVED_EVENT
  {
  }

  lemma KeysApart(id: nat, other: nat)
    ensures PaymentKey(id) == PaymentKey(other) ==> id == other
    ensures forall refund: nat :: PaymentKey(id) != RefundKey(refund)
  {
    if PaymentKey(id) == PaymentKey(other) { DecimalTextInjective(id, other); }
    assert |APPROVED_EVENT| != |REFUND_EVENT|;
  }

  /** Only approval and the mark of a posting touch what the books know of a payment. */
  lemma AccountingMoves(s: System, step: Step, id: nat)
    requires 1 <= id <= |s.desk.payments| && !step.Approve? && !step.Note?
    ensures |Apply(s, step).desk.payments| >= |s.desk.payments|
    ensures var before, after := s.desk.payments[id - 1], Apply(s, step).desk.payments[id - 1];
            after.accounting == before.accounting && after.journalEntryId == before.journalEntryId
  {
    hide Ledger.Post, L.Apply, Posting.LoadEvent;
  }

  predicate NoLateWrite(s: System, steps: seq<Step>, id: nat) {
    if steps == [] then true
    else NoLateWrite(s, steps[..|steps| - 1], id) && !WritesStatus(Run(s, steps[..|steps| - 1]), steps[|steps| - 1], id)
  }

  /**
   * In every run without a late write of its status a payment never goes back: a
   * settled one is never undecided again, and rejected, failed, refunded and
   * reversed are final.
   */
  lemma {:induction false} StatusNeverReturns(s: System, steps: seq<Step>, id: nat)
    requires 1 <= id <= |s.desk.payments| && NoLateWrite(s, steps, id)
    ensures |Run(s, steps).desk.payments| >= |s.desk.payments|
    ensures Stage(StatusOf(s, id)) <= Stage(StatusOf(Run(s, steps), id))
    ensures Stage(StatusOf(s, id)) == 3 ==> StatusOf(Run(s, steps), id) == StatusOf(s, id)
  {
    if steps != [] {
      StatusNeverReturns(s, steps[..|steps| - 1], id);
      StepAdvances(Run(s, steps[..|steps| - 1]), steps[|steps| - 1], id);
      hide Apply;
    }
  }
}
