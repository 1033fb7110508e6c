/** The invariant of the payment system: rows, tasks and entries agree on their subjects. */
module SystemInvariant {
  import opened Prelude
  import O = Outbox
  import P = Payments
  import opened Posting
  import opened Journal
  import opened Ledger
  import L = LedgerRuns
  import H = LedgerHistory
  import opened PaymentSystem

  function ModuleOf(eventType: string): string {
    if eventType == P.APPROVED_EVENT then PAYMENTS else REFUNDS
  }

  predicate IsEntryFor(e: Entry, sourceModule: string, id: nat) {
    SameSource(e, Some(sourceModule), Some(DecimalText(id)))
  }

  ghost predicate HasEntry(entries: seq<Entry>, sourceModule: string, id: nat) {
    exists i :: 0 <= i < |entries| && IsEntryFor(entries[i], sourceModule, id)
  }

  ghost predicate HasRow(rows: seq<O.OutboxRow>, key: O.EventKey) {
    exists i :: 0 <= i < |rows| && rows[i].key == key
  }

  // ------------------------------------------------------------ the invariant

  /** A row of the two families names an existing payment or refund by its own identifier. */
  ghost predicate SubjectSound(d: P.Desk, row: O.OutboxRow) {
    && (row.key.eventType == P.APPROVED_EVENT ==> 1 <= row.subject <= |d.payments| && row.key == P.PaymentKey(row.subject))
    && (row.key.eventType == P.REFUND_EVENT ==> 1 <= row.subject <= |d.refunds| && row.key == P.RefundKey(row.subject))
  }

  /** A row marked posted points at the entry of its subject. */
  ghost predicate PostedSound(books: Books, row: O.OutboxRow) {
    IsPaymentEvent(row.key.eventType) && row.status == O.RowPosted && row.subject >= 1 ==>
      row.journalEntryId.Some? && PointsAt(books, row.journalEntryId.value, row)
  }

  ghost predicate PointsAt(books: Books, entryId: nat, row: O.OutboxRow) {
    && 1 <= entryId <= |books.entries|
    && row.subject >= 1
    && IsEntryFor(books.entries[entryId - 1], ModuleOf(row.key.eventType), row.subject)
  }

  ghost predicate OutboxSound(d: P.Desk, books: Books) {
    && (forall i :: 0 <= i < |d.outbox| ==> SubjectSound(d, d.outbox[i]) && PostedSound(books, d.outbox[i]))
    && (forall i, j :: 0 <= i < j < |d.outbox| ==> d.outbox[i].key != d.outbox[j].key)
  }

  ghost predicate RefundSound(d: P.Desk, k: nat)
    requires k < |d.refunds|
  {
    && 1 <= d.refunds[k].paymentId <= |d.payments|
    && d.refunds[k].amount >= 1
  }

  ghost predicate DeskSound(d: P.Desk) {
    && (forall k :: 0 <= k < |d.payments| ==> d.payments[k].amount >= 1)
    && (forall k :: 0 <= k < |d.refunds| ==> RefundSound(d, k))
  }

  /** The entry a worker of a payment event has to post. */
  ghost predicate IsInputFor(d: P.Desk, event: O.OutboxRow, input: EntryInput) {
    if event.key.eventType == P.APPROVED_EVENT then
      1 <= event.subject <= |d.payments| && input == PaymentEntry(d.payments[event.subject - 1], event.subject)
    else
      && 1 <= event.subject <= |d.refunds|
      && 1 <= d.refunds[event.subject - 1].paymentId <= |d.payments|
      && input == RefundEntry(d.refunds[event.subject - 1], event.subject, d.payments[d.refunds[event.subject - 1].paymentId - 1])
  }

  ghost predicate TaskSound(s: System, t: Task) {
    && t.row < |s.desk.outbox| && s.desk.outbox[t.row].key == t.event.key
    && SubjectSound(s.desk, t.event)
    && match t.phase
       case Loaded(input) =>
         if IsPaymentEvent(t.event.key.eventType) then IsInputFor(s.desk, t.event, input)
         else !IsPaymentSource(input.sourceModule)
       case Entered(id) => IsPaymentEvent(t.event.key.eventType) ==> PointsAt(s.books, id, t.event)
       case Noted(id) => IsPaymentEvent(t.event.key.eventType) ==> PointsAt(s.books, id, t.event)
       case _ => true
  }

  /** An entry of the two families is the entry of a payment or refund that was enqueued. */
  ghost predicate Explained(d: P.Desk, e: Entry) {
    && (e.sourceModule == Some(PAYMENTS) ==>
          exists id: nat :: 1 <= id <= |d.payments| && IsEntryFor(e, PAYMENTS, id) && HasRow(d.outbox, P.PaymentKey(id)))
    && (e.sourceModule == Some(REFUNDS) ==>
          exists id: nat :: 1 <= id <= |d.refunds| && IsEntryFor(e, REFUNDS, id) && HasRow(d.outbox, P.RefundKey(id)))
  }

  ghost predicate Inv(s: System) {
    && L.Sound(s.books)
    && DeskSound(s.desk)
    && OutboxSound(s.desk, s.books)
    && (forall t :: t in s.tasks ==> TaskSound(s, s.tasks[t]))
    && (forall i :: 0 <= i < |s.books.entries| ==> Explained(s.desk, s.books.entries[i]))
  }

  // ------------------------------------------------------- how the desk grows

  predicate SamePayment(now: P.Payment, was: P.Payment) {
    now.amount == was.amount && now.kind == was.kind && now.date == was.date
    && (was.deleted ==> now.deleted)
    && now.contractId == was.contractId && now.reservationId == was.reservationId && now.propertyId == was.propertyId
  }

  predicate SameRefund(now: P.Refund, was: P.Refund) {
    now.amount == was.amount && now.paymentId == was.paymentId && now.date == was.date
  }

  /** Amounts, types and keys never change; rows are only added. */
  ghost predicate DeskExtends(after: P.Desk, before: P.Desk) {
    && |before.payments| <= |after.payments|
    && (forall k :: 0 <= k < |before.payments| ==> SamePayment(after.payments[k], before.payments[k]))
    && |before.refunds| <= |after.refunds|
    && (forall k :: 0 <= k < |before.refunds| ==> SameRefund(after.refunds[k], before.refunds[k]))
    && |before.outbox| <= |after.outbox|
    && (forall k :: 0 <= k < |before.outbox| ==> after.outbox[k].key == before.outbox[k].key)
  }

  lemma RowsKept(after: P.Desk, before: P.Desk, key: O.EventKey)
    requires DeskExtends(after, before) && HasRow(before.outbox, key)
    ensures HasRow(after.outbox, key)
  {
    var i :| 0 <= i < |before.outbox| && before.outbox[i].key == key;
    assert after.outbox[i].key == key;
  }

  lemma TaskKept(s: System, d: P.Desk, t: Task)
    requires DeskExtends(d, s.desk) && TaskSound(s, t)
    ensures TaskSound(s.(desk := d), t)
  {
    hide SubjectSound, HasRow;
    SubjectKept(s.desk, d, t.event);
    match t.phase {
      case Loaded(input) => if IsPaymentEvent(t.event.key.eventType) { InputKept(s.desk, d, t.event, input); }
      case _ =>
    }
  }

  lemma InputKept(before: P.Desk, after: P.Desk, event: O.OutboxRow, input: EntryInput)
    requires DeskExtends(after, before) && IsInputFor(before, event, input)
    ensures IsInputFor(after, event, input)
  {
  }

  lemma EntryKept(before: P.Desk, after: P.Desk, e: Entry)
    requires DeskExtends(after, before) && Explained(before, e)
    ensures Explained(after, e)
  {
    hide IsEntryFor;
    if e.sourceModule == Some(PAYMENTS) {
      var id: nat :| 1 <= id <= |before.payments| && IsEntryFor(e, PAYMENTS, id) && HasRow(before.outbox, P.PaymentKey(id));
      RowsKept(after, before, P.PaymentKey(id));
    }
    if e.sourceModule == Some(REFUNDS) {
      var id: nat :| 1 <= id <= |before.refunds| && IsEntryFor(e, REFUNDS, id) && HasRow(before.outbox, P.RefundKey(id));
      RowsKept(after, before, P.RefundKey(id));
    }
  }

  /** Growing the desk leaves tasks and entries explained. */
  lemma GrowthKeepsReaders(s: System, d: P.Desk)
    requires Inv(s) && DeskExtends(d, s.desk)
    ensures forall t :: t in s.tasks ==> TaskSound(s.(desk := d), s.tasks[t])
    ensures forall i :: 0 <= i < |s.books.entries| ==> Explained(d, s.books.entries[i])
  {
    hide TaskSound, Explained, DeskExtends;
    forall t | t in s.tasks ensures TaskSound(s.(desk := d), s.tasks[t]) {
      TaskKept(s, d, s.tasks[t]);
    }
    forall i | 0 <= i < |s.books.entries| ensures Explained(d, s.books.entries[i]) {
      EntryKept(s.desk, d, s.books.entries[i]);
    }
  }

  lemma SubjectKept(before: P.Desk, after: P.Desk, row: O.OutboxRow)
    requires DeskExtends(after, before) && SubjectSound(before, row)
    ensures SubjectSound(after, row)
  {
  }

  /** The parts of the invariant a change of desk has to establish itself. */
  ghost predicate GoodDesk(s: System, d: P.Desk) {
    DeskExtends(d, s.desk) && DeskSound(d) && OutboxSound(d, s.books)
  }

  lemma DeskStepInv(s: System, d: P.Desk)
    requires Inv(s) && GoodDesk(s, d)
    ensures Inv(s.(desk := d))
  {
    GrowthKeepsReaders(s, d);
  }

  // -------------------------------------------------------------- outbox rows

  /** An upsert of a sound key keeps the outbox sound. */
  lemma EnqueueGood(s: System, d: P.Desk, key: O.EventKey, subject: int)
    requires Inv(s) && DeskExtends(d, s.desk) && d.outbox == s.desk.outbox
    requires key.eventType == P.APPROVED_EVENT ==> 1 <= subject <= |d.payments| && key == P.PaymentKey(subject)
    requires key.eventType == P.REFUND_EVENT ==> 1 <= subject <= |d.refunds| && key == P.RefundKey(subject)
    ensures var after := d.(outbox := O.Enqueue(d.outbox, key, subject));
            && DeskExtends(after, s.desk) && OutboxSound(after, s.books) && HasRow(after.outbox, key)
            && forall other :: HasRow(d.outbox, other) ==> HasRow(after.outbox, other)
  {
    var k := O.FindRow(d.outbox, key);
    var after := d.(outbox := O.Enqueue(d.outbox, key, subject));
    assert after.outbox[k].key == key;
    forall i | 0 <= i < |after.outbox|
      ensures SubjectSound(after, after.outbox[i]) && PostedSound(s.books, after.outbox[i])
    {
      if i < |d.outbox| {
        assert SubjectSound(s.desk, d.outbox[i]) && PostedSound(s.books, d.outbox[i]);
        if i == k && IsPaymentEvent(key.eventType) {
          DecimalTextInjective(subject, d.outbox[k].subject);
        }
      }
    }
    forall other | HasRow(d.outbox, other) ensures HasRow(after.outbox, other) {
      RowsKept(after, d, other);
    }
  }

  /** Changing the progress fields of one row keeps everything, if a posted mark is true. */
  lemma RowUpdateInv(s: System, k: nat, row: O.OutboxRow)
    requires Inv(s) && k < |s.desk.outbox|
    requires row.key == s.desk.outbox[k].key && row.subject == s.desk.outbox[k].subject
    requires PostedSound(s.books, row)
    ensures Inv(SetOutbox(s, s.desk.outbox[k := row]))
  {
    var d := s.desk.(outbox := s.desk.outbox[k := row]);
    forall i | 0 <= i < |d.outbox| ensures SubjectSound(d, d.outbox[i]) && PostedSound(s.books, d.outbox[i]) {
      assert SubjectSound(s.desk, s.desk.outbox[i]);
    }
    forall j | 0 <= j < |d.refunds| ensures RefundSound(d, j) {
      assert RefundSound(s.desk, j);
    }
    DeskStepInv(s, d);
  }
}
