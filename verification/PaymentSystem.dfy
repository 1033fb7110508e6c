/**
 * Payments, outbox, workers and ledger as one state machine. Every database
 * transaction and every separate statement is one atomic step, so a run is any
 * interleaving of requests, workers, retries and crashes.
 */
module PaymentSystem {
  import opened Prelude
  import O = Outbox
  import P = Payments
  import opened Posting
  import opened Journal
  import opened Ledger
  import L = LedgerRuns

  /** Where a worker stands with an event it claimed. */
  datatype Phase =
    | Claimed
    | Loaded(input: EntryInput)
    | Entered(entryId: nat)
    | Noted(noted: nat)
    | Broken(message: string)

  /** An event in the hands of a worker, as read at its claim. */
  datatype Task = Task(row: nat, event: O.OutboxRow, phase: Phase)

  /** A status change that has checked the row it read and not yet written. */
  datatype Patch = Patch(id: int, status: P.PaymentStatus, admin: int)

  datatype System = System(desk: P.Desk, books: Books, tasks: map<nat, Task>, patches: map<nat, Patch>)

  datatype Step =
    | Create(payment: P.NewPayment)
    | CreateAsAdmin(payment: P.NewPayment, status: P.PaymentStatus, admin: int)
    | Approve(id: int, admin: int)
    | Reject(id: int, admin: int)
    | CreateRefund(id: int, amount: real, date: string)
    | Webhook(id: int, status: P.PaymentStatus)
    | CreateQr(payment: P.NewPayment)
    | ReadStatus(request: nat, id: int, status: P.PaymentStatus, admin: int)
    | WriteStatus(request: nat)
    | InsertRefund(id: int, cents: nat, date: string)
    | Delete(id: int)
    | Reprocess(id: int)
    | EnqueueOther(key: O.EventKey, subject: int)
    | Claim(row: nat, now: int, task: nat)
    | Load(task: nat)
    | LoadOther(task: nat, built: Option<EntryInput>)
    | Enter(task: nat, number: string)
    | Note(task: nat)
    | Finish(task: nat)
    | Break(task: nat, message: string)
    | Fail(task: nat, now: int)
    | Crash(task: nat)
    | LedgerStep(step: L.Step)

  predicate IsPaymentEvent(eventType: string) {
    eventType == P.APPROVED_EVENT || eventType == P.REFUND_EVENT
  }

  /** Entries of the two payment families. */
  predicate IsPaymentSource(sourceModule: Option<string>) {
    sourceModule == Some(PAYMENTS) || sourceModule == Some(REFUNDS)
  }

  predicate At(s: System, task: nat, phase: Phase) {
    task in s.tasks && s.tasks[task].phase == phase
  }

  /** When the step can happen; a step that cannot leaves the state alone. */
  predicate Enabled(s: System, step: Step) {
    match step
    case ReadStatus(request, id, status, _) => request !in s.patches && P.PatchAccepted(s.desk, id, status)
    case WriteStatus(request) => request in s.patches
    case EnqueueOther(key, _) => !IsPaymentEvent(key.eventType)
    case Claim(row, now, task) => task !in s.tasks && row < |s.desk.outbox| && O.Eligible(s.desk.outbox[row], now)
    case Load(task) => At(s, task, Claimed) && IsPaymentEvent(s.tasks[task].event.key.eventType)
    case LoadOther(task, input) =>
      && At(s, task, Claimed) && !IsPaymentEvent(s.tasks[task].event.key.eventType)
      && (input.Some? ==> !IsPaymentSource(input.value.sourceModule))
    case Enter(task, _) => task in s.tasks && s.tasks[task].phase.Loaded?
    case Note(task) => task in s.tasks && s.tasks[task].phase.Entered?
    case Finish(task) => task in s.tasks && s.tasks[task].phase.Noted?
    case Break(task, _) => task in s.tasks
    case Fail(task, _) => task in s.tasks && s.tasks[task].phase.Broken?
    case Crash(task) => task in s.tasks
    case LedgerStep(inner) => inner.PostStep? ==> !IsPaymentSource(inner.entry.sourceModule)
    case _ => true
  }

  function MoveTask(s: System, task: nat, phase: Phase): System
    requires task in s.tasks
  {
    s.(tasks := s.tasks[task := s.tasks[task].(phase := phase)])
  }

  function SetOutbox(s: System, rows: seq<O.OutboxRow>): System {
    s.(desk := s.desk.(outbox := rows))
  }

  function Apply(s: System, step: Step): System {
    if !Enabled(s, step) then s else
    match step
    case Create(input) => s.(desk := P.Create(s.desk, input).desk)
    case CreateAsAdmin(input, status, admin) => s.(desk := P.CreateAsAdmin(s.desk, input, status, admin).desk)
    case Approve(id, admin) => s.(desk := P.Approve(s.desk, id, admin).desk)
    case Reject(id, admin) => s.(desk := P.Reject(s.desk, id, admin).desk)
    case CreateRefund(id, amount, date) => s.(desk := P.CreateRefund(s.desk, id, amount, date).desk)
    case Webhook(id, status) => s.(desk := P.Webhook(s.desk, id, status))
    case CreateQr(input) => s.(desk := P.CreateQr(s.desk, input))
    case ReadStatus(request, id, status, admin) => s.(patches := s.patches[request := Patch(id, status, admin)])
    case WriteStatus(request) =>
      var patch := s.patches[request];
      s.(desk := P.WriteStatus(s.desk, patch.id, patch.status, patch.admin), patches := s.patches - {request})
    case InsertRefund(id, cents, date) => s.(desk := P.InsertRefund(s.desk, id, cents, date))
    case Delete(id) => s.(desk := P.Delete(s.desk, id))
    case Reprocess(id) => s.(desk := P.Reprocess(s.desk, id))
    case EnqueueOther(key, subject) => SetOutbox(s, O.Enqueue(s.desk.outbox, key, subject))
    case Claim(row, _, task) =>
      var event := O.ClaimedRow(s.desk.outbox[row]);
      SetOutbox(s, s.desk.outbox[row := event]).(tasks := s.tasks[task := Task(row, event, Claimed)])
    case Load(task) =>
      var event := s.tasks[task].event;
      var input := LoadEvent(s.desk, event.key.eventType, event.subject);
      MoveTask(s, task, if input.Some? then Loaded(input.value) else Broken("no encontrado"))
    case LoadOther(task, input) =>
      MoveTask(s, task, if input.Some? then Loaded(input.value) else Broken("no encontrado"))
    case Enter(task, number) =>
      var outcome := Post(s.books, s.tasks[task].phase.input, number);
      MoveTask(s, task, if outcome.result.Ok? then Entered(outcome.result.value.id) else Broken("rechazado")).(books := outcome.books)
    case Note(task) =>
      var event := s.tasks[task].event;
      MoveTask(s, task, Noted(s.tasks[task].phase.entryId)).(
        desk := NoteEvent(s.desk, event.key.eventType, event.subject, s.tasks[task].phase.entryId))
    case Finish(task) =>
      var t := s.tasks[task];
      SetOutbox(s, O.Apply(s.desk.outbox, O.PostedStep(t.row, t.phase.noted))).(tasks := s.tasks - {task})
    case Break(task, message) => MoveTask(s, task, Broken(message))
    case Fail(task, now) =>
      var t := s.tasks[task];
      SetOutbox(s, O.Apply(s.desk.outbox, O.FailedStep(t.row, t.event.attempts, t.phase.message, now))).(tasks := s.tasks - {task})
    case Crash(task) => s.(tasks := s.tasks - {task})
    case LedgerStep(inner) => s.(books := L.Apply(s.books, inner))
  }

  function Run(s: System, steps: seq<Step>): System {
    if steps == [] then s else Apply(Run(s, steps[..|steps| - 1]), steps[|steps| - 1])
  }

  /** A tenant with a chart of accounts and no activity. */
  ghost predicate Initial(s: System) {
    && s.desk == P.Desk([], [], [])
    && s.tasks == map[] && s.patches == map[]
    && s.books.entries == []
    && forall i, j :: 0 <= i < j < |s.books.chart| ==> s.books.chart[i].code != s.books.chart[j].code
  }
}
