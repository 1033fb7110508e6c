/** Every step of the payment system keeps its invariant. */
module SystemSteps {
  import opened Prelude
  import O = Outbox
  import P = Payments
  import opened Posting
  import opened Journal
  import opened Ledger
  import L = LedgerRuns
  import H = LedgerHistory
  import opened PaymentSystem
  import opened SystemInvariant

  // ---------------------------------------------------------- desk requests

  /** Requests that change payments alone, in place or by adding one. */
  lemma PaymentsOnly(s: System, d: P.Desk)
    requires Inv(s) && DeskExtends(d, s.desk) && d.outbox == s.desk.outbox && d.refunds == s.desk.refunds
    requires forall k :: 0 <= k < |d.payments| ==> d.payments[k].amount >= 1
    ensures Inv(s.(desk := d))
  {
    forall i | 0 <= i < |d.outbox| ensures SubjectSound(d, d.outbox[i]) && PostedSound(s.books, d.outbox[i]) {
      assert SubjectSound(s.desk, s.desk.outbox[i]);
    }
    forall k | 0 <= k < |d.refunds| ensures RefundSound(d, k) {
      assert RefundSound(s.desk, k);
    }
    DeskStepInv(s, d);
  }

  /** Requests that change payments and enqueue the event of one of them. */
  lemma PaymentsAndRow(s: System, d: P.Desk, id: nat)
    requires Inv(s) && DeskExtends(d, s.desk) && d.outbox == s.desk.outbox && d.refunds == s.desk.refunds
    requires forall k :: 0 <= k < |d.payments| ==> d.payments[k].amount >= 1
    requires 1 <= id <= |d.payments|
    ensures Inv(s.(desk := d.(outbox := O.Enqueue(d.outbox, P.PaymentKey(id), id))))
  {
    var after := d.(outbox := O.Enqueue(d.outbox, P.PaymentKey(id), id));
    EnqueueGood(s, d, P.PaymentKey(id), id);
    forall k | 0 <= k < |after.refunds| ensures RefundSound(after, k) {
      assert RefundSound(s.desk, k);
    }
    DeskStepInv(s, after);
  }

  lemma CreateInv(s: System, payment: P.NewPayment)
    requires Inv(s)
    ensures Inv(s.(desk := P.Create(s.desk, payment).desk))
  {
    PaymentsOnly(s, P.Create(s.desk, payment).desk);
  }

  lemma CreateAsAdminInv(s: System, payment: P.NewPayment, status: P.PaymentStatus, admin: int)
    requires Inv(s)
    ensures Inv(s.(desk := P.CreateAsAdmin(s.desk, payment, status, admin).desk))
  {
    if P.AmountAccepted(payment.amount) {
      var d := s.desk.(payments := s.desk.payments + [P.PaymentRow(payment, status, Some(admin))]);
      if status == P.APPROVED {
        PaymentsAndRow(s, d, |d.payments|);
      } else {
        PaymentsOnly(s, d);
      }
    }
  }

  lemma ApproveInv(s: System, id: int, admin: int)
    requires Inv(s)
    ensures Inv(s.(desk := P.Approve(s.desk, id, admin).desk))
  {
    var after := P.Approve(s.desk, id, admin).desk;
    if after != s.desk {
      PaymentsAndRow(s, after.(outbox := s.desk.outbox), id);
    }
  }

  lemma RejectInv(s: System, id: int, admin: int)
    requires Inv(s)
    ensures Inv(s.(desk := P.Reject(s.desk, id, admin).desk))
  {
    PaymentsOnly(s, P.Reject(s.desk, id, admin).desk);
  }

  lemma WebhookInv(s: System, id: int, status: P.PaymentStatus)
    requires Inv(s)
    ensures Inv(s.(desk := P.Webhook(s.desk, id, status)))
  {
    PaymentsOnly(s, P.Webhook(s.desk, id, status));
  }

  lemma CreateQrInv(s: System, payment: P.NewPayment)
    requires Inv(s)
    ensures Inv(s.(desk := P.CreateQr(s.desk, payment)))
  {
    PaymentsOnly(s, P.CreateQr(s.desk, payment));
  }

  lemma WriteStatusInv(s: System, patch: Patch)
    requires Inv(s)
    ensures Inv(s.(desk := P.WriteStatus(s.desk, patch.id, patch.status, patch.admin)))
  {
    PaymentsOnly(s, P.WriteStatus(s.desk, patch.id, patch.status, patch.admin));
  }

  lemma DeleteInv(s: System, id: int)
    requires Inv(s)
    ensures Inv(s.(desk := P.Delete(s.desk, id)))
  {
    PaymentsOnly(s, P.Delete(s.desk, id));
  }

  /** A refund without an event leaves rows, tasks and entries explained. */
  lemma InsertRefundInv(s: System, id: int, cents: nat, date: string)
    requires Inv(s)
    ensures Inv(s.(desk := P.InsertRefund(s.desk, id, cents, date)))
  {
    var d := P.InsertRefund(s.desk, id, cents, date);
    forall i | 0 <= i < |d.outbox| ensures SubjectSound(d, d.outbox[i]) && PostedSound(s.books, d.outbox[i]) {
      assert SubjectSound(s.desk, s.desk.outbox[i]);
    }
    forall k | 0 <= k < |d.refunds| ensures RefundSound(d, k) {
      if k < |s.desk.refunds| { assert RefundSound(s.desk, k); }
    }
    DeskStepInv(s, d);
  }

  /** Status changes in flight are no part of the invariant. */
  lemma PatchesInv(s: System, patches: map<nat, Patch>)
    requires Inv(s)
    ensures Inv(s.(patches := patches))
  {
    var after := s.(patches := patches);
    forall t | t in after.tasks ensures TaskSound(after, after.tasks[t]) {
      assert TaskSound(s, s.tasks[t]);
    }
  }

  lemma ReprocessInv(s: System, id: int)
    requires Inv(s)
    ensures Inv(s.(desk := P.Reprocess(s.desk, id)))
  {
    if P.Reprocess(s.desk, id) != s.desk {
      PaymentsAndRow(s, s.desk, id);
    }
  }

  lemma CreateRefundInv(s: System, id: int, amount: real, date: string)
    requires Inv(s)
    ensures Inv(s.(desk := P.CreateRefund(s.desk, id, amount, date).desk))
  {
    var after := P.CreateRefund(s.desk, id, amount, date).desk;
    if after != s.desk {
      var refundId := |s.desk.refunds| + 1;
      var d := after.(outbox := s.desk.outbox);
      EnqueueGood(s, d, P.RefundKey(refundId), refundId);
      forall k | 0 <= k < |after.refunds| ensures RefundSound(after, k) {
        if k < |s.desk.refunds| { assert RefundSound(s.desk, k); }
      }
      DeskStepInv(s, after);
    }
  }

  lemma EnqueueOtherInv(s: System, key: O.EventKey, subject: int)
    requires Inv(s) && !IsPaymentEvent(key.eventType)
    ensures Inv(SetOutbox(s, O.Enqueue(s.desk.outbox, key, subject)))
  {
    var after := s.desk.(outbox := O.Enqueue(s.desk.outbox, key, subject));
    EnqueueGood(s, s.desk, key, subject);
    forall k | 0 <= k < |after.refunds| ensures RefundSound(after, k) {
      assert RefundSound(s.desk, k);
    }
    DeskStepInv(s, after);
  }

  // ----------------------------------------------------------------- workers

  /** A worker's own progress touches nothing but its task. */
  lemma MoveInv(s: System, task: nat, phase: Phase)
    requires Inv(s) && task in s.tasks && TaskSound(s, s.tasks[task].(phase := phase))
    ensures Inv(MoveTask(s, task, phase))
  {
    var after := MoveTask(s, task, phase);
    forall t | t in after.tasks ensures TaskSound(after, after.tasks[t]) {
      if t != task { assert TaskSound(s, s.tasks[t]); }
    }
  }

  lemma DropInv(s: System, task: nat)
    requires Inv(s)
    ensures Inv(s.(tasks := s.tasks - {task}))
  {
    var after := s.(tasks := s.tasks - {task});
    forall t | t in after.tasks ensures TaskSound(after, after.tasks[t]) {
      assert TaskSound(s, s.tasks[t]);
    }
  }

  lemma ClaimInv(s: System, row: nat, now: int, task: nat)
    requires Inv(s) && Enabled(s, Claim(row, now, task))
    ensures Inv(Apply(s, Claim(row, now, task)))
  {
    var event := O.ClaimedRow(s.desk.outbox[row]);
    var claimed := SetOutbox(s, s.desk.outbox[row := event]);
    RowUpdateInv(s, row, event);
    var after := claimed.(tasks := s.tasks[task := Task(row, event, Claimed)]);
    forall t | t in after.tasks ensures TaskSound(after, after.tasks[t]) {
      if t != task { assert TaskSound(claimed, claimed.tasks[t]); }
      else { assert SubjectSound(claimed.desk, claimed.desk.outbox[row]); }
    }
  }

  lemma LoadedInput(d: P.Desk, event: O.OutboxRow)
    requires IsPaymentEvent(event.key.eventType)
    ensures var input := LoadEvent(d, event.key.eventType, event.subject); input.Some? ==> IsInputFor(d, event, input.value)
  {
  }

  lemma LoadInv(s: System, task: nat)
    requires Inv(s) && Enabled(s, Load(task))
    ensures Inv(Apply(s, Load(task)))
  {
    var event := s.tasks[task].event;
    var input := LoadEvent(s.desk, event.key.eventType, event.subject);
    assert TaskSound(s, s.tasks[task]);
    LoadedInput(s.desk, event);
    hide LoadEvent, Inv, SubjectSound, IsInputFor;
    MoveInv(s, task, if input.Some? then Loaded(input.value) else Broken("no encontrado"));
  }

  lemma LoadOtherInv(s: System, task: nat, built: Option<EntryInput>)
    requires Inv(s) && Enabled(s, LoadOther(task, built))
    ensures Inv(Apply(s, LoadOther(task, built)))
  {
    assert TaskSound(s, s.tasks[task]);
    MoveInv(s, task, if built.Some? then Loaded(built.value) else Broken("no encontrado"));
  }

  lemma NoteDeskInv(s: System, eventType: string, subject: int, entryId: nat)
    requires Inv(s)
    ensures Inv(s.(desk := NoteEvent(s.desk, eventType, subject, entryId)))
  {
    var d := NoteEvent(s.desk, eventType, subject, entryId);
    forall i | 0 <= i < |d.outbox| ensures SubjectSound(d, d.outbox[i]) && PostedSound(s.books, d.outbox[i]) {
      assert SubjectSound(s.desk, s.desk.outbox[i]);
    }
    forall k | 0 <= k < |d.refunds| ensures RefundSound(d, k) {
      assert RefundSound(s.desk, k);
    }
    DeskStepInv(s, d);
  }

  lemma NoteInv(s: System, task: nat)
    requires Inv(s) && Enabled(s, Note(task))
    ensures Inv(Apply(s, Note(task)))
  {
    hide NoteEvent, SubjectSound, PointsAt;
    var t := s.tasks[task];
    var noted := s.(desk := NoteEvent(s.desk, t.event.key.eventType, t.event.subject, t.phase.entryId));
    NoteDeskInv(s, t.event.key.eventType, t.event.subject, t.phase.entryId);
    assert TaskSound(noted, noted.tasks[task]);
    MoveInv(noted, task, Noted(t.phase.entryId));
  }

  /** Rows and tasks of one key speak of one subject, so a true mark stays true. */
  lemma PostedMarkSound(d: P.Desk, books: Books, event: O.OutboxRow, row: O.OutboxRow, entryId: nat)
    requires SubjectSound(d, event) && SubjectSound(d, row) && event.key == row.key
    requires IsPaymentEvent(event.key.eventType) ==> PointsAt(books, entryId, event)
    ensures PostedSound(books, O.PostedRow(row, entryId))
  {
    if IsPaymentEvent(row.key.eventType) {
      DecimalTextInjective(event.subject, row.subject);
    }
  }

  lemma FinishInv(s: System, task: nat)
    requires Inv(s) && Enabled(s, Finish(task))
    ensures Inv(Apply(s, Finish(task)))
  {
    hide SubjectSound, PointsAt, PostedSound;
    var t := s.tasks[task];
    assert TaskSound(s, t);
    var row := s.desk.outbox[t.row];
    PostedMarkSound(s.desk, s.books, t.event, row, t.phase.noted);
    hide Inv;
    RowUpdateInv(s, t.row, O.PostedRow(row, t.phase.noted));
    DropInv(SetOutbox(s, s.desk.outbox[t.row := O.PostedRow(row, t.phase.noted)]), task);
  }

  lemma FailInv(s: System, task: nat, now: int)
    requires Inv(s) && Enabled(s, Fail(task, now))
    ensures Inv(Apply(s, Fail(task, now)))
  {
    var t := s.tasks[task];
    assert TaskSound(s, t);
    var row := O.FailedRow(s.desk.outbox[t.row], t.event.attempts, t.phase.message, now);
    RowUpdateInv(s, t.row, row);
    DropInv(SetOutbox(s, s.desk.outbox[t.row := row]), task);
  }

  // ------------------------------------------------------------------ ledger

  /** Books that only grew, by an entry that is explained, keep the invariant. */
  lemma BooksInv(s: System, books: Books)
    requires Inv(s) && L.Sound(books) && H.Extends(books, s.books)
    requires forall i :: |s.books.entries| <= i < |books.entries| ==> Explained(s.desk, books.entries[i])
    ensures Inv(s.(books := books))
  {
    var after := s.(books := books);
    forall i | 0 <= i < |books.entries| ensures Explained(s.desk, books.entries[i]) {
      if i < |s.books.entries| {
        assert Explained(s.desk, s.books.entries[i]);
        assert H.SameButStatus(books.entries[i], s.books.entries[i]);
        ExplainedKept(s.desk, books.entries[i], s.books.entries[i]);
      }
    }
    forall i | 0 <= i < |s.desk.outbox| ensures PostedSound(books, s.desk.outbox[i]) {
      assert PostedSound(s.books, s.desk.outbox[i]);
      PointsKept(s.books, books, s.desk.outbox[i]);
    }
    forall t | t in s.tasks ensures TaskSound(after, s.tasks[t]) {
      assert TaskSound(s, s.tasks[t]);
      PointsKept(s.books, books, s.tasks[t].event);
    }
  }

  lemma ExplainedKept(d: P.Desk, now: Entry, was: Entry)
    requires H.SameButStatus(now, was) && Explained(d, was)
    ensures Explained(d, now)
  {
    if was.sourceModule == Some(PAYMENTS) {
      var id: nat :| 1 <= id <= |d.payments| && IsEntryFor(was, PAYMENTS, id) && HasRow(d.outbox, P.PaymentKey(id));
      assert IsEntryFor(now, PAYMENTS, id);
    }
    if was.sourceModule == Some(REFUNDS) {
      var id: nat :| 1 <= id <= |d.refunds| && IsEntryFor(was, REFUNDS, id) && HasRow(d.outbox, P.RefundKey(id));
      assert IsEntryFor(now, REFUNDS, id);
    }
  }

  lemma PointsKept(before: Books, after: Books, row: O.OutboxRow)
    requires H.Extends(after, before)
    ensures forall id: nat :: PointsAt(before, id, row) ==> PointsAt(after, id, row)
  {
    forall id: nat | PointsAt(before, id, row) ensures PointsAt(after, id, row) {
      assert H.SameButStatus(after.entries[id - 1], before.entries[id - 1]);
    }
  }

  lemma LedgerStepInv(s: System, inner: L.Step)
    requires Inv(s) && Enabled(s, LedgerStep(inner))
    ensures Inv(s.(books := L.Apply(s.books, inner)))
  {
    L.ApplySound(s.books, inner);
    H.ApplyExtends(s.books, inner);
    BooksInv(s, L.Apply(s.books, inner));
  }

  /** A receipt names an entry with the source of the input, old or new. */
  lemma ReceiptPoints(b: Books, input: EntryInput, number: string)
    ensures var outcome := Post(b, input, number);
            && (HasSource(input) && outcome.result.Ok? ==>
                  1 <= outcome.result.value.id <= |outcome.books.entries|
                  && SameSource(outcome.books.entries[outcome.result.value.id - 1], input.sourceModule, input.sourceId))
            && (forall i :: |b.entries| <= i < |outcome.books.entries| ==>
                  outcome.books.entries[i].sourceModule == input.sourceModule && outcome.books.entries[i].sourceId == input.sourceId)
  {
  }

  lemma EnterInv(s: System, task: nat, number: string)
    requires Inv(s) && Enabled(s, Enter(task, number))
    ensures Inv(Apply(s, Enter(task, number)))
  {
    hide Post, HasSource, L.Sound, H.Extends, DeskSound, OutboxSound, Explained, SubjectSound, IsInputFor;
    var t := s.tasks[task];
    var input := t.phase.input;
    var outcome := Post(s.books, input, number);
    L.PostSound(s.books, input, number);
    assert L.Apply(s.books, L.PostStep(input, number)) == outcome.books;
    H.ApplyExtends(s.books, L.PostStep(input, number));
    EntriesExplained(s, t, number);
    BooksInv(s, outcome.books);
    var entered := s.(books := outcome.books);
    var phase := if outcome.result.Ok? then Entered(outcome.result.value.id) else Broken("rechazado");
    EnteredTask(s, t, number);
    hide Inv, TaskSound;
    MoveInv(entered, task, phase);
  }

  lemma EntriesExplained(s: System, t: Task, number: string)
    requires Inv(s) && TaskSound(s, t) && t.phase.Loaded?
    ensures var books := Post(s.books, t.phase.input, number).books;
            forall i :: |s.books.entries| <= i < |books.entries| ==> Explained(s.desk, books.entries[i])
  {
    ReceiptPoints(s.books, t.phase.input, number);
    hide Post, HasSource, Inv;
    if IsPaymentEvent(t.event.key.eventType) {
      NewEntryExplained(s.desk, t, t.phase.input);
    }
  }

  lemma EnteredTask(s: System, t: Task, number: string)
    requires TaskSound(s, t) && t.phase.Loaded?
    ensures var outcome := Post(s.books, t.phase.input, number);
            TaskSound(s.(books := outcome.books),
                      t.(phase := if outcome.result.Ok? then Entered(outcome.result.value.id) else Broken("rechazado")))
  {
    hide Post, HasSource, IsInputFor, Explained, P.PaymentKey, P.RefundKey;
    ReceiptPoints(s.books, t.phase.input, number);
    if IsPaymentEvent(t.event.key.eventType) {
      NewEntryExplained(s.desk, t, t.phase.input);
    }
  }

  lemma NewEntryExplained(d: P.Desk, t: Task, input: EntryInput)
    requires t.row < |d.outbox| && d.outbox[t.row].key == t.event.key
    requires SubjectSound(d, t.event) && IsPaymentEvent(t.event.key.eventType) && IsInputFor(d, t.event, input)
    ensures HasSource(input)
    ensures input.sourceModule == Some(ModuleOf(t.event.key.eventType)) && input.sourceId == Some(DecimalText(t.event.subject))
    ensures forall e: Entry :: e.sourceModule == input.sourceModule && e.sourceId == input.sourceId ==> Explained(d, e)
  {
    assert HasRow(d.outbox, t.event.key);
    forall e: Entry | e.sourceModule == input.sourceModule && e.sourceId == input.sourceId ensures Explained(d, e) {
      assert IsEntryFor(e, ModuleOf(t.event.key.eventType), t.event.subject);
    }
  }

  // ---------------------------------------------------------------- all steps

  lemma RequestInv(s: System, step: Step)
    requires Inv(s) && Enabled(s, step)
    requires step.Create? || step.CreateAsAdmin? || step.CreateQr? || step.Approve? || step.Reject? || step.Webhook? || step.ReadStatus?
             || step.WriteStatus? || step.CreateRefund? || step.InsertRefund? || step.Delete? || step.Reprocess? || step.EnqueueOther?
    ensures Inv(Apply(s, step))
  {
    hide Inv;
    match step {
      case Create(payment) => CreateInv(s, payment);
      case CreateAsAdmin(payment, status, admin) => CreateAsAdminInv(s, payment, status, admin);
      case CreateQr(payment) => CreateQrInv(s, payment);
      case Approve(id, admin) => ApproveInv(s, id, admin);
      case Reject(id, admin) => RejectInv(s, id, admin);
      case Webhook(id, status) => WebhookInv(s, id, status);
      case ReadStatus(request, id, status, admin) => PatchesInv(s, s.patches[request := Patch(id, status, admin)]);
      case WriteStatus(request) =>
        var patch := s.patches[request];
        WriteStatusInv(s, patch);
        PatchesInv(s.(desk := P.WriteStatus(s.desk, patch.id, patch.status, patch.admin)), s.patches - {request});
      case CreateRefund(id, amount, date) => CreateRefundInv(s, id, amount, date);
      case InsertRefund(id, cents, date) => InsertRefundInv(s, id, cents, date);
      case Delete(id) => DeleteInv(s, id);
      case Reprocess(id) => ReprocessInv(s, id);
      case EnqueueOther(key, subject) => EnqueueOtherInv(s, key, subject);
    }
  }

  /** Every step keeps the invariant. */
  lemma ApplyInv(s: System, step: Step)
    requires Inv(s)
    ensures Inv(Apply(s, step))
  {
    hide Inv;
    if Enabled(s, step) {
      match step {
        case Claim(row, now, task) => ClaimInv(s, row, now, task);
        case Load(task) => LoadInv(s, task);
        case LoadOther(task, built) => LoadOtherInv(s, task, built);
        case Enter(task, number) => EnterInv(s, task, number);
        case Note(task) => NoteInv(s, task);
        case Finish(task) => FinishInv(s, task);
        case Break(task, message) => BreakInv(s, task, message);
        case Fail(task, now) => FailInv(s, task, now);
        case Crash(task) => DropInv(s, task);
        case LedgerStep(inner) => LedgerStepInv(s, inner);
        case _ => RequestInv(s, step);
      }
    }
  }

  lemma BreakInv(s: System, task: nat, message: string)
    requires Inv(s) && task in s.tasks
    ensures Inv(MoveTask(s, task, Broken(message)))
  {
    assert TaskSound(s, s.tasks[task]);
    MoveInv(s, task, Broken(message));
  }

  lemma {:induction false} RunInv(s: System, steps: seq<Step>)
    requires Inv(s)
    ensures Inv(Run(s, steps))
  {
    hide Inv;
    if steps != [] {
      RunInv(s, steps[..|steps| - 1]);
      ApplyInv(Run(s, steps[..|steps| - 1]), steps[|steps| - 1]);
    }
  }

  lemma InitialInv(s: System)
    requires Initial(s)
    ensures Inv(s)
  {
  }
}
