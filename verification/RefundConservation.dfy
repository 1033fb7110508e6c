/** When refunds stay within their payment, what REFUNDED means, and which payments reconcile as documented. */
module RefundConservation {
  import opened Prelude
  import O = Outbox
  import P = Payments
  import opened Posting
  import opened PaymentSystem
  import opened SystemInvariant
  import opened SystemSteps
  import opened Reconciliation
  import opened EndToEnd

  /** Refund totals depend on payment numbers and amounts only. */
  lemma {:induction false} TotalsKept(before: seq<P.Refund>, after: seq<P.Refund>, id: int)
    requires |before| == |after| && forall k :: 0 <= k < |before| ==> SameRefund(after[k], before[k])
    ensures P.RefundTotal(after, id) == P.RefundTotal(before, id)
  {
    if before != [] {
      assert SameRefund(after[|after| - 1], before[|before| - 1]);
      TotalsKept(before[..|before| - 1], after[..|after| - 1], id);
    }
  }

  lemma {:induction false} NoTotalYet(d: P.Desk, n: nat, id: int)
    requires DeskSound(d) && n <= |d.refunds| && id > |d.payments|
    ensures P.RefundTotal(d.refunds[..n], id) == 0
  {
    if n > 0 {
      NoTotalYet(d, n - 1, id);
      assert RefundSound(d, n - 1);
      assert d.refunds[..n][..n - 1] == d.refunds[..n - 1];
    }
  }

  /** What a step refunds of a payment. */
  function Refunds(s: System, step: Step, id: int): nat {
    match step
    case CreateRefund(target, amount, date) =>
      if target == id && P.CreateRefund(s.desk, target, amount, date).result.Ok? then P.StoredAmount(amount) else 0
    case InsertRefund(target, cents, date) =>
      if target == id && P.InsertRefund(s.desk, target, cents, date) != s.desk then cents else 0
    case _ => 0
  }

  /** The total of a payment moves exactly by what a step refunds of it. */
  lemma TotalsMove(s: System, step: Step, id: int)
    requires Inv(s)
    ensures P.RefundTotal(Apply(s, step).desk.refunds, id) == P.RefundTotal(s.desk.refunds, id) + Refunds(s, step, id)
    ensures id > |s.desk.payments| ==> P.RefundTotal(s.desk.refunds, id) == 0 == Refunds(s, step, id)
  {
    hide P.RefundTotal, Apply, Inv;
    var d, after := s.desk, Apply(s, step).desk;
    if id > |d.payments| { NoTotal(s, step, id); }
    if after.refunds != d.refunds && (step.CreateRefund? || step.InsertRefund?) {
      RefundAppended(s, step, id);
    } else {
      StepExtendsDesk(s, step);
      RefundsOnly(s, step, id);
      TotalsKept(d.refunds, after.refunds, id);
    }
  }

  lemma NoTotal(s: System, step: Step, id: int)
    requires Inv(s) && id > |s.desk.payments|
    ensures P.RefundTotal(s.desk.refunds, id) == 0 == Refunds(s, step, id)
  {
    hide P.RefundTotal;
    NoTotalYet(s.desk, |s.desk.refunds|, id);
    assert s.desk.refunds[..|s.desk.refunds|] == s.desk.refunds;
  }

  lemma RefundAppended(s: System, step: Step, id: int)
    requires (step.CreateRefund? || step.InsertRefund?) && Apply(s, step).desk.refunds != s.desk.refunds
    ensures P.RefundTotal(Apply(s, step).desk.refunds, id) == P.RefundTotal(s.desk.refunds, id) + Refunds(s, step, id)
  {
    hide O.Enqueue, P.StoredAmount;
    assert Apply(s, step).desk.refunds[..|s.desk.refunds|] == s.desk.refunds;
  }

  lemma RefundsOnly(s: System, step: Step, id: int)
    requires Apply(s, step).desk.refunds == s.desk.refunds || !(step.CreateRefund? || step.InsertRefund?)
    ensures |Apply(s, step).desk.refunds| == |s.desk.refunds| && Refunds(s, step, id) == 0
  {
    hide Ledger.Post;
    assert forall r: P.Refund :: s.desk.refunds + [r] != s.desk.refunds;
  }

  // --------------------------------------------------- within the amount

  /** A refund of a reservation is not checked against what was refunded before. */
  predicate Fits(s: System, step: Step, id: int) {
    P.Created(s.desk, id) && step.InsertRefund? ==>
      P.RefundTotal(s.desk.refunds, id) + Refunds(s, step, id) <= s.desk.payments[id - 1].amount
  }

  predicate AllFit(start: System, steps: seq<Step>, id: int) {
    if steps == [] then true
    else AllFit(start, steps[..|steps| - 1], id) && Fits(Run(start, steps[..|steps| - 1]), steps[|steps| - 1], id)
  }

  predicate Within(d: P.Desk, id: int) {
    P.Created(d, id) ==> P.RefundTotal(d.refunds, id) <= d.payments[id - 1].amount
  }

  /** A requested refund never passes the amount; one of a reservation does unless it fits. */
  lemma WithinMoves(s: System, step: Step, id: int)
    requires Inv(s)
    ensures Within(Apply(s, step).desk, id) <==> Within(s.desk, id) && Fits(s, step, id)
  {
    var d, after := s.desk, Apply(s, step).desk;
    StepExtendsDesk(s, step);
    TotalsMove(s, step, id);
    if P.Created(d, id) { assert SamePayment(after.payments[id - 1], d.payments[id - 1]); }
    hide Inv, Apply, P.RefundTotal;
  }

  /**
   * In every run the refunds of a payment sum to at most its amount exactly when
   * every refund its reservation gave it fitted at that moment.
   */
  lemma {:induction false} RefundsWithinIff(start: System, steps: seq<Step>, id: int)
    requires Initial(start)
    ensures Within(Run(start, steps).desk, id) <==> AllFit(start, steps, id)
  {
    if steps != [] {
      RefundsWithinIff(start, steps[..|steps| - 1], id);
      ReachableInv(start, steps[..|steps| - 1]);
      WithinMoves(Run(start, steps[..|steps| - 1]), steps[|steps| - 1], id);
      hide Inv, Within, Fits;
    }
  }

  // ------------------------------------------------- the status REFUNDED

  /** How the status of a payment relates to its refunds. */
  datatype Standing = Agrees | RefundedEarly | UsedUpUnmarked

  function StandingWith(status: P.PaymentStatus, total: nat, amount: nat): Standing {
    if (status == P.REFUNDED) == (total == amount) then Agrees
    else if status == P.REFUNDED then RefundedEarly
    else UsedUpUnmarked
  }

  function StandingOf(d: P.Desk, id: int): Standing
    requires P.Created(d, id)
  {
    StandingWith(d.payments[id - 1].status, P.RefundTotal(d.refunds, id), d.payments[id - 1].amount)
  }

  /** The step creates the payment, changes its status or refunds it. */
  predicate Touches(s: System, step: Step, id: int) {
    match step
    case Create(payment) => P.AmountAccepted(payment.amount) && id == |s.desk.payments| + 1
    case CreateAsAdmin(payment, _, _) => P.AmountAccepted(payment.amount) && id == |s.desk.payments| + 1
    case CreateQr(payment) => P.AmountAccepted(payment.amount) && id == |s.desk.payments| + 1
    case Approve(target, admin) => target == id && P.Approve(s.desk, target, admin).result.Ok?
    case Reject(target, admin) => target == id && P.Reject(s.desk, target, admin).result.Ok?
    case Webhook(target, status) => target == id && P.Exists(s.desk, id) && P.WebhookAllows(s.desk.payments[id - 1].status, status)
    case WriteStatus(request) => request in s.patches && s.patches[request].id == id && P.Exists(s.desk, id)
    case CreateRefund(_, _, _) => Refunds(s, step, id) > 0
    case InsertRefund(_, _, _) => Refunds(s, step, id) > 0
    case _ => false
  }

  /** Where a touching step leaves the payment, from what its caller can see before it. */
  function StandingAfter(s: System, step: Step, id: int): Standing
    requires Touches(s, step, id)
  {
    match step
    case CreateAsAdmin(_, status, _) => if status == P.REFUNDED then RefundedEarly else Agrees
    case Approve(_, _) => StandingWith(P.APPROVED, P.RefundTotal(s.desk.refunds, id), s.desk.payments[id - 1].amount)
    case Reject(_, _) => StandingWith(P.REJECTED, P.RefundTotal(s.desk.refunds, id), s.desk.payments[id - 1].amount)
    case Webhook(_, status) => StandingWith(status, P.RefundTotal(s.desk.refunds, id), s.desk.payments[id - 1].amount)
    case WriteStatus(request) =>
      StandingWith(s.patches[request].status, P.RefundTotal(s.desk.refunds, id), s.desk.payments[id - 1].amount)
    case InsertRefund(target, cents, _) =>
      if P.Created(s.desk, id) && P.RefundTotal(s.desk.refunds, id) + cents != s.desk.payments[id - 1].amount then RefundedEarly else Agrees
    case _ => Agrees
  }

  lemma UntouchedKeepsStatus(s: System, step: Step, id: int)
    requires P.Created(Apply(s, step).desk, id) && !Touches(s, step, id)
    ensures P.Created(s.desk, id)
    ensures Apply(s, step).desk.payments[id - 1].status == s.desk.payments[id - 1].status
    ensures Refunds(s, step, id) == 0
  {
    hide Ledger.Post, O.Enqueue, LoadEvent, P.RefundTotal;
  }

  /** The status a touching step writes. */
  lemma TouchedStatus(s: System, step: Step, id: int)
    requires Touches(s, step, id)
    ensures P.Created(Apply(s, step).desk, id)
    ensures var now := Apply(s, step).desk.payments[id - 1].status; var d := s.desk;
            match step
            case Create(_) => now == P.PENDING && id == |d.payments| + 1
            case CreateAsAdmin(_, status, _) => now == status && id == |d.payments| + 1
            case CreateQr(_) => now == P.APPROVED && id == |d.payments| + 1
            case Approve(_, _) => now == P.APPROVED && P.Created(d, id)
            case Reject(_, _) => now == P.REJECTED && P.Created(d, id)
            case Webhook(_, status) => now == status && P.Created(d, id)
            case WriteStatus(request) => now == s.patches[request].status && P.Created(d, id)
            case CreateRefund(_, _, _) =>
              P.Created(d, id) && d.payments[id - 1].status == P.APPROVED
              && now == if P.RefundTotal(d.refunds, id) + Refunds(s, step, id) == d.payments[id - 1].amount then P.REFUNDED else P.APPROVED
            case InsertRefund(_, cents, _) => P.Created(d, id) && now == P.REFUNDED && Refunds(s, step, id) == cents
            case _ => false
    ensures !step.CreateRefund? && !step.InsertRefund? ==> Refunds(s, step, id) == 0
  {
    hide Ledger.Post, O.Enqueue, LoadEvent, P.RefundTotal;
  }

  lemma SameAmount(s: System, step: Step, id: int)
    requires Inv(s) && P.Created(Apply(s, step).desk, id)
    ensures Apply(s, step).desk.payments[id - 1].amount >= 1
    ensures P.Created(s.desk, id) ==> Apply(s, step).desk.payments[id - 1].amount == s.desk.payments[id - 1].amount
  {
    StepExtendsDesk(s, step);
    ApplyInv(s, step);
    hide Apply;
    if P.Created(s.desk, id) { assert SamePayment(Apply(s, step).desk.payments[id - 1], s.desk.payments[id - 1]); }
  }

  lemma StandingMoves(s: System, step: Step, id: int)
    requires Inv(s) && P.Created(Apply(s, step).desk, id)
    ensures Touches(s, step, id) ==> StandingOf(Apply(s, step).desk, id) == StandingAfter(s, step, id)
    ensures !Touches(s, step, id) ==> P.Created(s.desk, id) && StandingOf(Apply(s, step).desk, id) == StandingOf(s.desk, id)
  {
    hide Apply, Refunds, P.RefundTotal, DeskExtends, Inv, Touches;
    SameAmount(s, step, id);
    TotalsMove(s, step, id);
    if Touches(s, step, id) { TouchedStatus(s, step, id); } else { UntouchedKeepsStatus(s, step, id); }
  }

  /** The standing the last touching step of a run left behind. */
  function StandingByHistory(start: System, steps: seq<Step>, id: int): Standing {
    if steps == [] then Agrees
    else
      var before := Run(start, steps[..|steps| - 1]);
      if Touches(before, steps[|steps| - 1], id) then StandingAfter(before, steps[|steps| - 1], id)
      else StandingByHistory(start, steps[..|steps| - 1], id)
  }

  /**
   * In every run REFUNDED means refunded in full exactly as the last step that
   * touched the payment left it: requested refunds always do; a report, a status
   * change, an administrator's creation and a reservation refund do exactly when
   * what they write fits the refunds they find.
   */
  lemma {:induction false} RefundedByHistory(start: System, steps: seq<Step>, id: int)
    requires Initial(start) && P.Created(Run(start, steps).desk, id)
    ensures StandingOf(Run(start, steps).desk, id) == StandingByHistory(start, steps, id)
  {
    if steps != [] {
      var before, step := Run(start, steps[..|steps| - 1]), steps[|steps| - 1];
      ReachableInv(start, steps[..|steps| - 1]);
      StandingMoves(before, step, id);
      hide Inv, Touches, StandingAfter, StandingOf;
      if !Touches(before, step, id) { RefundedByHistory(start, steps[..|steps| - 1], id); }
    }
  }

  /** A status change lands on the payment when it is used up, with another status. */
  predicate Unmarks(s: System, step: Step, id: int) {
    step.WriteStatus? && Touches(s, step, id) && StandingAfter(s, step, id) == UsedUpUnmarked
  }

  predicate NeverUnmarked(start: System, steps: seq<Step>, id: int) {
    if steps == [] then true
    else NeverUnmarked(start, steps[..|steps| - 1], id) && !Unmarks(Run(start, steps[..|steps| - 1]), steps[|steps| - 1], id)
  }

  /** Unless a late status change overwrites it, a payment refunded in full is REFUNDED. */
  lemma {:induction false} UsedUpIsRefunded(start: System, steps: seq<Step>, id: int)
    requires Initial(start) && P.Created(Run(start, steps).desk, id) && NeverUnmarked(start, steps, id)
    ensures P.RefundTotal(Run(start, steps).desk.refunds, id) == Run(start, steps).desk.payments[id - 1].amount ==>
              Run(start, steps).desk.payments[id - 1].status == P.REFUNDED
  {
    if steps != [] {
      var before, step := Run(start, steps[..|steps| - 1]), steps[|steps| - 1];
      ReachableInv(start, steps[..|steps| - 1]);
      StandingMoves(before, step, id);
      if P.Created(before.desk, id) {
        UsedUpIsRefunded(start, steps[..|steps| - 1], id);
        if Touches(before, step, id) && !step.WriteStatus? { TouchedFrom(before, step, id); }
      }
      hide Inv, Apply;
    }
  }

  /** Requests move a payment on only from a status that is not REFUNDED. */
  lemma TouchedFrom(s: System, step: Step, id: int)
    requires Touches(s, step, id) && P.Created(s.desk, id) && !step.WriteStatus?
    ensures s.desk.payments[id - 1].status != P.REFUNDED || Apply(s, step).desk.payments[id - 1].status == P.REFUNDED
  {
  }

  // ------------------------------------------------------ ordinary payments

  lemma RowsAfterEnqueue(rows: seq<O.OutboxRow>, key: O.EventKey, subject: int, other: O.EventKey)
    ensures HasRow(O.Enqueue(rows, key, subject), other) <==> (HasRow(rows, other) || other == key)
  {
    var k := O.FindRow(rows, key);
    var after := O.Enqueue(rows, key, subject);
    assert after[k].key == key;
    if HasRow(rows, other) {
      var i :| 0 <= i < |rows| && rows[i].key == other;
      assert after[i].key == other;
    }
  }

  /** How a step changes the rows, apart from their progress. */
  lemma RowsAfter(s: System, step: Step)
    ensures var d, after := s.desk, Apply(s, step).desk;
            match step
            case CreateAsAdmin(payment, status, _) =>
              after.outbox == if P.AmountAccepted(payment.amount) && status == P.APPROVED
                              then O.Enqueue(d.outbox, P.PaymentKey(|d.payments| + 1), |d.payments| + 1) else d.outbox
            case Approve(id, admin) =>
              after.outbox == if P.Approve(d, id, admin).result.Ok? then O.Enqueue(d.outbox, P.PaymentKey(id), id) else d.outbox
            case Reprocess(id) => after.outbox == if P.Exists(d, id) && EnqueuesPayment(s, step, id) then O.Enqueue(d.outbox, P.PaymentKey(id), id) else d.outbox
            case CreateRefund(_, _, _) =>
              after.outbox == d.outbox || after.outbox == O.Enqueue(d.outbox, P.RefundKey(|d.refunds| + 1), |d.refunds| + 1)
            case EnqueueOther(key, subject) => after.outbox == d.outbox || (after.outbox == O.Enqueue(d.outbox, key, subject) && !IsPaymentEvent(key.eventType))
            case _ => |after.outbox| == |d.outbox| && forall i :: 0 <= i < |d.outbox| ==> after.outbox[i].key == d.outbox[i].key
  {
    hide Ledger.Post, O.Enqueue, LoadEvent, P.RefundTotal;
  }

  /** The payment rows that exist after a step: the ones before, and one it enqueues. */
  lemma EnqueuedAfter(s: System, step: Step, id: nat)
    ensures var d, after := s.desk, Apply(s, step).desk;
            Enqueued(after, id) <==> (Enqueued(d, id) || EnqueuesPayment(s, step, id))
  {
    hide Apply, O.Enqueue, P.AmountAccepted, P.RefundTotal;
    RowsAfter(s, step);
    var d, after := s.desk, Apply(s, step).desk;
    match step {
      case CreateAsAdmin(_, _, _) => KeyOf(d.outbox, |d.payments| + 1, id);
      case Approve(target, _) => if P.Exists(d, target) { KeyOf(d.outbox, target, id); }
      case Reprocess(target) => if P.Exists(d, target) { KeyOf(d.outbox, target, id); }
      case CreateRefund(_, _, _) =>
        RowsAfterEnqueue(d.outbox, P.RefundKey(|d.refunds| + 1), |d.refunds| + 1, P.PaymentKey(id));
        assert P.APPROVED_EVENT[8] == 'a' && P.REFUND_EVENT[8] == 'r';
      case EnqueueOther(key, subject) => RowsAfterEnqueue(d.outbox, key, subject, P.PaymentKey(id));
      case _ => SameKeysSameRows(d.outbox, after.outbox, P.PaymentKey(id));
    }
  }

  lemma KeyOf(rows: seq<O.OutboxRow>, target: nat, id: nat)
    ensures HasRow(O.Enqueue(rows, P.PaymentKey(target), target), P.PaymentKey(id)) <==>
            (HasRow(rows, P.PaymentKey(id)) || id == target)
  {
    RowsAfterEnqueue(rows, P.PaymentKey(target), target, P.PaymentKey(id));
    if P.PaymentKey(id) == P.PaymentKey(target) { DecimalTextInjective(id, target); }
  }

  lemma SameKeysSameRows(before: seq<O.OutboxRow>, after: seq<O.OutboxRow>, key: O.EventKey)
    requires |before| == |after| && forall i :: 0 <= i < |before| ==> after[i].key == before[i].key
    ensures HasRow(after, key) <==> HasRow(before, key)
  {
    if HasRow(before, key) {
      var i :| 0 <= i < |before| && before[i].key == key;
      assert after[i].key == key;
    }
  }

  /** The step enqueues the approval event of this payment. */
  predicate EnqueuesPayment(s: System, step: Step, id: nat) {
    match step
    case CreateAsAdmin(payment, status, _) => P.AmountAccepted(payment.amount) && status == P.APPROVED && id == |s.desk.payments| + 1
    case Approve(target, admin) => target == id && P.Approve(s.desk, target, admin).result.Ok?
    case Reprocess(target) =>
      && target == id && P.Exists(s.desk, id)
      && s.desk.payments[id - 1].status == P.APPROVED && s.desk.payments[id - 1].accounting != P.AccountingPosted
    case _ => false
  }

  /** Only a payment that exists can be enqueued. */
  lemma EnqueuedExists(s: System, id: nat)
    requires Inv(s) && Enqueued(s.desk, id)
    ensures 1 <= id <= |s.desk.payments|
  {
    var i :| 0 <= i < |s.desk.outbox| && s.desk.outbox[i].key == P.PaymentKey(id);
    assert SubjectSound(s.desk, s.desk.outbox[i]);
    DecimalTextInjective(s.desk.outbox[i].subject, id);
  }

  /**
   * The step does to this payment nothing that bypasses the events: no report or
   * late status change about money, no creation in REFUNDED, no approval by the
   * bank, no refund of its reservation and no deletion while it is settled. Other
   * payments do not matter.
   */
  predicate Ordinary(s: System, step: Step, id: nat) {
    match step
    case Webhook(target, status) => target == id ==> status == P.PROCESSING || status == P.REJECTED || status == P.FAILED
    case CreateAsAdmin(_, status, _) => id == |s.desk.payments| + 1 ==> status != P.REFUNDED
    case CreateQr(_) => id != |s.desk.payments| + 1
    case InsertRefund(target, _, _) => target != id
    case Delete(target) => target == id && P.Exists(s.desk, id) ==> !Settled(s.desk.payments[id - 1])
    case WriteStatus(request) =>
      request in s.patches && s.patches[request].id == id && P.Exists(s.desk, id) ==>
        !Settled(s.desk.payments[id - 1]) && s.patches[request].status != P.APPROVED && s.patches[request].status != P.REFUNDED
    case _ => true
  }

  ghost predicate AllOrdinary(start: System, steps: seq<Step>, id: nat) {
    if steps == [] then true
    else AllOrdinary(start, steps[..|steps| - 1], id) && Ordinary(Run(start, steps[..|steps| - 1]), steps[|steps| - 1], id)
  }

  /** Settled means enqueued, REFUNDED means refunded in full, and every refund was enqueued. */
  ghost predicate Regular(d: P.Desk, id: nat)
    requires P.Created(d, id)
  {
    var total := P.RefundTotal(d.refunds, id);
    && (Settled(d.payments[id - 1]) <==> Enqueued(d, id))
    && StandingOf(d, id) == Agrees
    && (total > 0 ==> Settled(d.payments[id - 1]))
    && total <= d.payments[id - 1].amount
    && AllRefundsEnqueued(d, id)
  }

  /** Every request but a reservation refund enqueues the refund it adds. */
  lemma RefundsStayEnqueued(s: System, step: Step, id: nat)
    requires AllRefundsEnqueued(s.desk, id) && !(step.InsertRefund? && step.id == id)
    ensures AllRefundsEnqueued(Apply(s, step).desk, id)
  {
    var d, after := s.desk, Apply(s, step).desk;
    StepExtendsDesk(s, step);
    forall k | 0 <= k < |after.refunds| && after.refunds[k].paymentId == id ensures RefundEnqueued(after, k + 1) {
      if k < |d.refunds| {
        assert SameRefund(after.refunds[k], d.refunds[k]) && RefundEnqueued(d, k + 1);
        RowsKept(after, d, P.RefundKey(k + 1));
      } else {
        AddedRefund(s, step);
      }
    }
  }

  lemma AddedRefund(s: System, step: Step)
    requires |Apply(s, step).desk.refunds| > |s.desk.refunds|
    ensures var d, after := s.desk, Apply(s, step).desk;
            && |after.refunds| == |d.refunds| + 1
            && (step.CreateRefund? || step.InsertRefund?)
            && after.refunds[|d.refunds|].paymentId == step.id
            && (step.CreateRefund? ==> RefundEnqueued(after, |d.refunds| + 1))
  {
    hide Ledger.Post, LoadEvent;
    if step.CreateRefund? {
      var key := P.RefundKey(|s.desk.refunds| + 1);
      RowsAfterEnqueue(s.desk.outbox, key, |s.desk.refunds| + 1, key);
    }
  }

  /** What an ordinary step keeps of rows, totals and amounts. */
  lemma RegularFacts(s: System, step: Step, id: nat)
    requires Inv(s) && Ordinary(s, step, id) && P.Created(Apply(s, step).desk, id)
    requires P.Created(s.desk, id) ==> AllRefundsEnqueued(s.desk, id)
    ensures var d, after := s.desk, Apply(s, step).desk;
            && (Enqueued(after, id) <==> Enqueued(d, id) || EnqueuesPayment(s, step, id))
            && P.RefundTotal(after.refunds, id) == P.RefundTotal(d.refunds, id) + Refunds(s, step, id)
            && after.payments[id - 1].amount >= 1
            && AllRefundsEnqueued(after, id)
            && (P.Created(d, id) ==> after.payments[id - 1].amount == d.payments[id - 1].amount)
            && (!P.Created(d, id) ==> !Enqueued(d, id) && P.RefundTotal(d.refunds, id) == 0 == Refunds(s, step, id))
  {
    var d, after := s.desk, Apply(s, step).desk;
    StepExtendsDesk(s, step);
    EnqueuedAfter(s, step, id);
    TotalsMove(s, step, id);
    ApplyInv(s, step);
    assert after.payments[id - 1].amount >= 1;
    hide Inv, Apply, Refunds, EnqueuesPayment, Enqueued, P.RefundTotal, AllRefundsEnqueued;
    if P.Created(d, id) {
      RefundsStayEnqueued(s, step, id);
      assert SamePayment(after.payments[id - 1], d.payments[id - 1]);
    } else {
      NoRefundsYet(s, step, id);
      if Enqueued(d, id) { EnqueuedExists(s, id); }
    }
  }

  lemma RegularKept(s: System, step: Step, id: nat)
    requires Inv(s) && Ordinary(s, step, id) && P.Created(Apply(s, step).desk, id)
    requires P.Created(s.desk, id) ==> Regular(s.desk, id)
    ensures Regular(Apply(s, step).desk, id)
  {
    hide Inv, Apply, Refunds, Touches, Ordinary, Enqueued, EnqueuesPayment, P.RefundTotal, AllRefundsEnqueued;
    RegularFacts(s, step, id);
    if Touches(s, step, id) { TouchedRegular(s, step, id); } else { UntouchedRegular(s, step, id); }
  }

  /** A payment created by this step has no refund. */
  lemma NoRefundsYet(s: System, step: Step, id: nat)
    requires Inv(s) && !P.Created(s.desk, id) && P.Created(Apply(s, step).desk, id)
    ensures AllRefundsEnqueued(Apply(s, step).desk, id)
  {
    hide Ledger.Post, LoadEvent, O.Enqueue, O.Eligible;
    StepExtendsDesk(s, step);
    if |Apply(s, step).desk.refunds| > |s.desk.refunds| { AddedRefund(s, step); }
    forall k | 0 <= k < |s.desk.refunds| ensures s.desk.refunds[k].paymentId != id {
      assert RefundSound(s.desk, k);
    }
  }

  /** What an ordinary touching step does to the parts of a regular payment. */
  lemma TouchedRegular(s: System, step: Step, id: nat)
    requires Inv(s) && Ordinary(s, step, id) && Touches(s, step, id)
    requires P.Created(s.desk, id) ==> Regular(s.desk, id)
    ensures P.Created(Apply(s, step).desk, id)
    ensures var now := Apply(s, step).desk.payments[id - 1]; var d := s.desk;
            if !P.Created(d, id) then
              now.status != P.REFUNDED && (Settled(now) <==> EnqueuesPayment(s, step, id))
            else
              var was := d.payments[id - 1]; var total := P.RefundTotal(d.refunds, id) + Refunds(s, step, id);
              && (Settled(now) <==> Settled(was) || EnqueuesPayment(s, step, id))
              && (now.status == P.REFUNDED <==> total == was.amount)
              && (Refunds(s, step, id) > 0 ==> Settled(now)) && total <= was.amount
  {
    TouchedStatus(s, step, id);
    hide Ledger.Post, LoadEvent, O.Enqueue, O.Eligible, P.RefundTotal;
    assert P.Created(s.desk, id) ==> s.desk.payments[id - 1].amount >= 1;
    if step.CreateRefund? && P.Created(s.desk, id) { FitsByCheck(s, step, id); }
    hide Inv, Apply, Enqueued;
  }

  lemma FitsByCheck(s: System, step: Step, id: nat)
    requires step.CreateRefund? && P.Created(s.desk, id) && Refunds(s, step, id) > 0
    ensures P.RefundTotal(s.desk.refunds, id) + Refunds(s, step, id) <= s.desk.payments[id - 1].amount
  {
  }

  lemma UntouchedRegular(s: System, step: Step, id: nat)
    requires P.Created(Apply(s, step).desk, id) && !Touches(s, step, id)
    ensures P.Created(s.desk, id) && Refunds(s, step, id) == 0
    ensures Apply(s, step).desk.payments[id - 1].status == s.desk.payments[id - 1].status
    ensures Ordinary(s, step, id) ==> Settled(Apply(s, step).desk.payments[id - 1]) == Settled(s.desk.payments[id - 1])
    ensures EnqueuesPayment(s, step, id) ==> Settled(s.desk.payments[id - 1])
  {
    UntouchedKeepsStatus(s, step, id);
    hide Apply, Ledger.Post, P.RefundTotal;
  }

  lemma {:induction false} OrdinaryRunRegular(start: System, steps: seq<Step>, id: nat)
    requires Initial(start) && AllOrdinary(start, steps, id) && P.Created(Run(start, steps).desk, id)
    ensures Regular(Run(start, steps).desk, id)
  {
    if steps != [] {
      var before := Run(start, steps[..|steps| - 1]);
      ReachableInv(start, steps[..|steps| - 1]);
      if P.Created(before.desk, id) { OrdinaryRunRegular(start, steps[..|steps| - 1], id); }
      hide Inv, Ordinary, Regular;
      RegularKept(before, steps[|steps| - 1], id);
    }
  }

  /**
   * A payment that only ordinary steps touched, whatever happened to others:
   * once every event is posted its lines leave exactly its amount less its
   * refunds on cash and the opposite on its income or deposit account, which is
   * nothing exactly when it is unsettled or REFUNDED.
   */
  lemma OrdinaryPaymentReconciles(start: System, steps: seq<Step>, id: nat)
    requires Initial(start) && AllPosted(Run(start, steps)) && AllOrdinary(start, steps, id) && P.Exists(Run(start, steps).desk, id)
    ensures var s := Run(start, steps); var p := s.desk.payments[id - 1]; var left := TaggedNet(s, CASH, id);
            && left == (if Settled(p) then p.amount - P.RefundTotal(s.desk.refunds, id) else 0)
            && TaggedNet(s, IncomeAccount(p.kind), id) == -left
            && left >= 0
            && (left == 0 <==> p.status != P.APPROVED)
  {
    var s := Run(start, steps);
    OrdinaryRunRegular(start, steps, id);
    PaymentReconciles(start, steps, id);
    DeskCountsIff(start, steps, id);
    hide Run, Initial, AllPosted, AllOrdinary, TaggedNet, Enqueued, AllRefundsEnqueued, P.RefundTotal;
    assert Regular(s.desk, id);
  }

  // --------------------------------------------------------- all of them

  lemma {:induction false} NothingMissing(d: P.Desk, n: nat)
    requires n <= |d.payments| && forall id :: 1 <= id <= |d.payments| ==> Regular(d, id)
    ensures MissingPayments(d, n) == 0 && LapsedPayments(d, n) == 0
  {
    if n > 0 {
      NothingMissing(d, n - 1);
      assert Regular(d, n);
    }
  }

  lemma {:induction false} NoRefundMissing(d: P.Desk, n: nat)
    requires DeskSound(d) && n <= |d.refunds| && forall id :: 1 <= id <= |d.payments| ==> Regular(d, id)
    ensures MissingRefunds(d, n) == 0 && LapsedRefunds(d, n) == 0
  {
    if n > 0 {
      NoRefundMissing(d, n - 1);
      var id := d.refunds[n - 1].paymentId;
      assert RefundSound(d, n - 1) && Regular(d, id);
      HasTotal(d, n);
    }
  }

  /** A refund shows in the total of its payment. */
  lemma HasTotal(d: P.Desk, n: nat)
    requires 1 <= n <= |d.refunds| && d.refunds[n - 1].amount >= 1
    ensures P.RefundTotal(d.refunds, d.refunds[n - 1].paymentId) > 0
  {
    TotalGrows(d.refunds, n, |d.refunds|, d.refunds[n - 1].paymentId);
    assert d.refunds[..n][..n - 1] == d.refunds[..n - 1];
    assert d.refunds[..|d.refunds|] == d.refunds;
  }

  lemma {:induction false} TotalGrows(refunds: seq<P.Refund>, i: nat, n: nat, id: int)
    requires i <= n <= |refunds|
    ensures P.RefundTotal(refunds[..i], id) <= P.RefundTotal(refunds[..n], id)
  {
    if i < n {
      TotalGrows(refunds, i, n - 1, id);
      assert refunds[..n][..n - 1] == refunds[..n - 1];
    }
  }

  /** When that holds of all payments, the cash of the ledger is what the tables count. */
  lemma OrdinaryRunsReconcile(start: System, steps: seq<Step>)
    requires Initial(start) && AllPosted(Run(start, steps))
    requires forall id :: 1 <= id <= |Run(start, steps).desk.payments| ==> AllOrdinary(start, steps, id)
    ensures var s := Run(start, steps); var d := s.desk;
            SourcedNet(s.books.chart, s.books.entries, ON_CASH) == SettledAmount(d.payments) - RefundedAmount(d, |d.refunds|)
  {
    var d := Run(start, steps).desk;
    CashDifference(start, steps);
    ReachableInv(start, steps);
    forall id | 1 <= id <= |d.payments| ensures Regular(d, id) { OrdinaryRunRegular(start, steps, id); }
    NothingMissing(d, |d.payments|);
    NoRefundMissing(d, |d.refunds|);
  }
}
