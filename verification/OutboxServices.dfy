/** The outbox writer and the worker over the tables they update. */
module OutboxServices {
  import opened Prelude
  import O = Outbox
  import P = Payments
  import opened Posting
  import opened Journal
  import opened Ledger
  import L = LedgerRuns
  import PS = PaymentSystem
  import opened LedgerService
  import opened TenantTables
  import opened OutboxWorker

  class AccountingOutboxService {
    const db: Tables

    constructor (db: Tables)
      ensures this.db == db
    {
      this.db := db;
    }

    /** Inserts the row of a key, or revives it in place unless it is posted. */
    method Enqueue(key: O.EventKey, subject: int)
      modifies db`outbox
      ensures db.outbox == O.Enqueue(old(db.outbox), key, subject)
      ensures exists k :: 0 <= k < |db.outbox| && db.outbox[k].key == key && db.outbox[k].subject == subject
                && db.outbox[k].lastError.None? && db.outbox[k].nextRetryAt.None?
                && db.outbox[k].status == (if k < |old(db.outbox)| && old(db.outbox)[k].status == O.RowPosted then O.RowPosted else O.RowPending)
    {
      var k := O.FindRow(db.outbox, key);
      if k < |db.outbox| {
        db.outbox := db.outbox[k := O.Requeued(db.outbox[k], subject)];
      } else {
        db.outbox := db.outbox + [O.OutboxRow(key, subject, O.RowPending, 0, None, None, None)];
      }
      assert db.outbox[k].key == key;
    }
  }

  datatype PostingError = NothingToPost | LedgerRefused(cause: LedgerError)

  /** A posting that adds an entry answers with its number; a refused one changes nothing. */
  lemma PostingAnswers(b: Books, input: EntryInput, number: string)
    ensures var outcome := Post(b, input, number);
            && (outcome.result.Err? ==> outcome.books == b)
            && (outcome.books != b ==> outcome.result == Ok(Receipt(|b.entries| + 1, number)))
  {
    hide L.Holds;
  }

  lemma PaymentPosted(b: Books, p: P.Payment, id: nat, number: string)
    ensures var outcome := Post(b, PaymentEntry(p, id), number);
            && (outcome.result.Err? ==> outcome.books == b)
            && (outcome.books != b ==>
                  && outcome.result == Ok(Receipt(|b.entries| + 1, number)) && outcome.books.chart == b.chart
                  && |outcome.books.entries| == |b.entries| + 1
                  && var e := outcome.books.entries[|b.entries|];
                  && outcome.books.entries == b.entries + [e] && Dated(e, p.date, "payments", id)
                  && Transfers(b.chart, e, IncomeAccount(p.kind), "1100", p.amount, LineTags(p, id)))
  {
    hide Post, PaymentEntry, Transfers, Dated, L.Holds;
    PostingAnswers(b, PaymentEntry(p, id), number);
    L.PostHolds(b, PaymentEntry(p, id), number);
    var after := Post(b, PaymentEntry(p, id), number).books;
    if after != b { PaymentRecorded(b.chart, after.entries[|b.entries|], p, id); }
  }

  lemma RefundPosted(b: Books, r: P.Refund, id: nat, p: P.Payment, number: string)
    ensures var outcome := Post(b, RefundEntry(r, id, p), number);
            && (outcome.result.Err? ==> outcome.books == b)
            && (outcome.books != b ==>
                  && outcome.result == Ok(Receipt(|b.entries| + 1, number)) && outcome.books.chart == b.chart
                  && |outcome.books.entries| == |b.entries| + 1
                  && var e := outcome.books.entries[|b.entries|];
                  && outcome.books.entries == b.entries + [e] && Dated(e, r.date, "payment_refunds", id)
                  && Transfers(b.chart, e, "1100", IncomeAccount(p.kind), r.amount, LineTags(p, r.paymentId)))
  {
    hide Post, RefundEntry, Transfers, Dated, L.Holds;
    PostingAnswers(b, RefundEntry(r, id, p), number);
    L.PostHolds(b, RefundEntry(r, id, p), number);
    var after := Post(b, RefundEntry(r, id, p), number).books;
    if after != b { RefundRecorded(b.chart, after.entries[|b.entries|], r, id, p); }
  }

  class AccountingPaymentPostingService {
    const db: Tables
    const ledger: AccountingLedgerService

    constructor (db: Tables)
      ensures this.db == db && Valid()
    {
      this.db := db;
      ledger := new AccountingLedgerService(db);
    }

    predicate Valid() {
      ledger.db == db && ledger.Valid()
    }

    /** Two transactions: the entry, then its mark on the payment it came from. */
    method PostApprovedPayment(id: int, number: string) returns (r: Result<nat, PostingError>)
      requires Valid()
      modifies db`entries, db`payments
      ensures r == PostingResult(LoadPayment(old(db.GetDesk()), id), old(db.GetBooks()), number)
      ensures r.Err? ==> db.entries == old(db.entries) && db.payments == old(db.payments)
      ensures r.Ok? ==>
                && P.Exists(old(db.GetDesk()), id) && old(db.payments)[id - 1].status == P.APPROVED
                && db.GetBooks() == Post(old(db.GetBooks()), PaymentEntry(old(db.payments)[id - 1], id), number).books
                && db.payments == old(db.payments)[id - 1 :=
                     old(db.payments)[id - 1].(accounting := P.AccountingPosted, journalEntryId := Some(r.value))]
      ensures db.entries != old(db.entries) ==>
                var e, p := db.entries[|old(db.entries)|], old(db.payments)[id - 1];
                && db.entries == old(db.entries) + [e] && r == Ok(|db.entries|) && Dated(e, p.date, "payments", id)
                && Transfers(db.chart, e, IncomeAccount(p.kind), "1100", p.amount, LineTags(p, id))
    {
      hide Post, PaymentEntry, Transfers, Dated, L.Holds;
      if !P.Exists(db.GetDesk(), id) || db.payments[id - 1].status != P.APPROVED {
        return Err(NothingToPost);
      }
      var payment := db.payments[id - 1];
      if payment.amount <= 0 {
        return Err(NothingToPost);
      }
      PaymentPosted(db.GetBooks(), payment, id, number);
      var posted := ledger.PostEntry(PaymentEntry(payment, id), number);
      if posted.Err? {
        return Err(LedgerRefused(posted.error));
      }
      db.payments := db.payments[id - 1 := NotedPayment(payment, posted.value.id)];
      return Ok(posted.value.id);
    }
  }

  class AccountingPaymentRefundPostingService {
    const db: Tables
    const ledger: AccountingLedgerService

    constructor (db: Tables)
      ensures this.db == db && Valid()
    {
      this.db := db;
      ledger := new AccountingLedgerService(db);
    }

    predicate Valid() {
      ledger.db == db && ledger.Valid()
    }

    method PostPaymentRefund(id: int, number: string) returns (r: Result<nat, PostingError>)
      requires Valid()
      modifies db`entries, db`refunds
      ensures r == PostingResult(LoadRefund(old(db.GetDesk()), id), old(db.GetBooks()), number)
      ensures r.Err? ==> db.entries == old(db.entries) && db.refunds == old(db.refunds)
      ensures r.Ok? ==>
                && 1 <= id <= |old(db.refunds)| && P.Exists(old(db.GetDesk()), old(db.refunds)[id - 1].paymentId)
                && db.GetBooks() == Post(old(db.GetBooks()), LoadRefund(old(db.GetDesk()), id).value, number).books
                && db.refunds == old(db.refunds)[id - 1 := old(db.refunds)[id - 1].(posted := true, journalEntryId := Some(r.value))]
      ensures db.entries != old(db.entries) ==>
                var e, refund := db.entries[|old(db.entries)|], old(db.refunds)[id - 1];
                var p := db.payments[refund.paymentId - 1];
                && db.entries == old(db.entries) + [e] && r == Ok(|db.entries|) && Dated(e, refund.date, "payment_refunds", id)
                && Transfers(db.chart, e, "1100", IncomeAccount(p.kind), refund.amount, LineTags(p, refund.paymentId))
    {
      hide Post, RefundEntry, Transfers, Dated, L.Holds;
      if id < 1 || id > |db.refunds| || !P.Exists(db.GetDesk(), db.refunds[id - 1].paymentId) {
        return Err(NothingToPost);
      }
      var refund := db.refunds[id - 1];
      if refund.amount <= 0 {
        return Err(NothingToPost);
      }
      var entry := RefundEntry(refund, id, db.payments[refund.paymentId - 1]);
      RefundPosted(db.GetBooks(), refund, id, db.payments[refund.paymentId - 1], number);
      var posted := ledger.PostEntry(entry, number);
      if posted.Err? {
        return Err(LedgerRefused(posted.error));
      }
      db.refunds := db.refunds[id - 1 := NotedRefund(refund, posted.value.id)];
      return Ok(posted.value.id);
    }
  }

  /** What a posting answers, given what it found to post. */
  function PostingResult(input: Option<EntryInput>, b: Books, number: string): Result<nat, PostingError> {
    match input
    case None => Err(NothingToPost)
    case Some(entry) =>
      match Post(b, entry, number).result
      case Ok(receipt) => Ok(receipt.id)
      case Err(cause) => Err(LedgerRefused(cause))
  }

  /** The postings of the expense and owner statement families are a parameter. */
  class AccountingOutboxProcessor {
    const db: Tables
    const ledger: AccountingLedgerService
    const paymentPosting: AccountingPaymentPostingService
    const refundPosting: AccountingPaymentRefundPostingService
    const build: Builder

    constructor (db: Tables, build: Builder)
      requires KeepsApart(build)
      ensures this.db == db && this.build == build && Valid()
    {
      this.db := db;
      this.build := build;
      ledger := new AccountingLedgerService(db);
      paymentPosting := new AccountingPaymentPostingService(db);
      refundPosting := new AccountingPaymentRefundPostingService(db);
    }

    ghost predicate Valid() {
      && ledger.db == db && ledger.Valid() && KeepsApart(build)
      && paymentPosting.db == db && paymentPosting.Valid()
      && refundPosting.db == db && refundPosting.Valid()
    }

    function Now(): State
      reads db
    {
      State(db.GetDesk(), db.GetBooks())
    }

    /**
     * Claims a batch in one statement, then processes its events one by one. The
     * tables end as after a run of the state machine, so the invariant and the
     * reconciliation of every run hold of them.
     */
    method ProcessPending(limit: nat, now: int, numbers: nat -> string, clock: nat -> int) returns (count: nat)
      requires Valid()
      modifies db
      ensures Now() == Pass(old(Now()), limit, build, now, numbers, clock)
      ensures count == Min(limit, O.DueCount(old(db.outbox), now))
      ensures |db.outbox| == |old(db.outbox)|
      ensures forall k :: 0 <= k < |db.outbox| ==>
                var row := old(db.outbox)[k];
                if (row.status == O.RowPending || row.status == O.RowFailed)
                   && (row.nextRetryAt.None? || row.nextRetryAt.value <= now)
                   && O.DueCount(old(db.outbox)[..k], now) < limit
                then Settles(db.outbox[k]) && db.outbox[k].attempts == row.attempts + 1
                else db.outbox[k] == row
      ensures PS.Run(Idle(old(Now()), map[]), PassSteps(old(Now()), limit, build, now, numbers, clock)) == Idle(Now(), map[])
    {
      PassIsRun(Now(), map[], limit, build, now, numbers, clock);
      PassTakesDue(Now(), limit, build, now, numbers, clock);
      hide Pass, O.DueCount, Process, PS.Run, PassSteps, O.ClaimSet;
      var ids := O.ClaimSet(db.outbox, limit, now);
      var events := Events(db.outbox, ids);
      db.outbox := ClaimedRows(db.outbox, ids);
      ProcessEvents(events, numbers, clock);
      return |events|;
    }

    method ProcessEvents(events: seq<Event>, numbers: nat -> string, clock: nat -> int)
      requires Valid()
      modifies db
      ensures Now() == ProcessAll(old(Now()), events, build, numbers, clock)
    {
      hide Process;
      for i := 0 to |events|
        invariant Now() == ProcessAll(old(Now()), events[..i], build, numbers, clock)
      {
        ProcessEvent(events[i], numbers(i), clock(i));
        assert events[..i + 1][..i] == events[..i];
      }
      assert events[..|events|] == events;
    }

    method ProcessEvent(event: Event, number: string, now: int)
      requires Valid()
      modifies db
      ensures Now() == Process(old(Now()), event, build, number, now)
    {
      hide Post, LoadEvent;
      var result := HandleEvent(event.read, number);
      match result
      case Ok(id) => Mark(O.PostedStep(event.row, id));
      case Err(message) => Mark(O.FailedStep(event.row, event.read.attempts, message, now));
    }

    /** Hands an event to the posting of its family. */
    method HandleEvent(event: O.OutboxRow, number: string) returns (r: Result<nat, string>)
      requires Valid()
      modifies db
      ensures db.chart == old(db.chart) && db.periods == old(db.periods)
      ensures var before := old(Now());
              var input := BuildEntry(before.desk, event, build);
              if input.None? then r == Err("no encontrado") && Now() == before
              else
                var outcome := Post(before.books, input.value, number);
                if outcome.result.Err? then r == Err("rechazado") && Now() == before
                else
                  var id := outcome.result.value.id;
                  r == Ok(id) && Now() == State(NoteEvent(before.desk, event.key.eventType, event.subject, id), outcome.books)
    {
      hide Post, PaymentEntry, RefundEntry;
      if event.key.eventType == P.APPROVED_EVENT {
        if event.subject <= 0 {
          return Err("no encontrado");
        }
        var posted := paymentPosting.PostApprovedPayment(event.subject, number);
        return Answer(posted);
      }
      if event.key.eventType == P.REFUND_EVENT {
        if event.subject <= 0 {
          return Err("no encontrado");
        }
        var posted := refundPosting.PostPaymentRefund(event.subject, number);
        return Answer(posted);
      }
      var input := build(event);
      if input.None? {
        return Err("no encontrado");
      }
      RefusalKeepsBooks(db.GetBooks(), input.value, number);
      var posted := ledger.PostEntry(input.value, number);
      return Answer(if posted.Ok? then Ok(posted.value.id) else Err(LedgerRefused(posted.error)));
    }

    static function Answer(r: Result<nat, PostingError>): Result<nat, string> {
      match r
      case Ok(id) => Ok(id)
      case Err(NothingToPost) => Err("no encontrado")
      case Err(LedgerRefused(_)) => Err("rechazado")
    }

    method Mark(step: O.Step)
      requires step.PostedStep? || step.FailedStep?
      modifies db`outbox
      ensures db.outbox == O.Apply(old(db.outbox), step)
    {
      var k := step.row;
      if k < |db.outbox| {
        db.outbox := db.outbox[k :=
          if step.PostedStep? then O.PostedRow(db.outbox[k], step.entryId)
          else O.FailedRow(db.outbox[k], step.attempts, step.message, step.at)];
      }
    }
  }
}
