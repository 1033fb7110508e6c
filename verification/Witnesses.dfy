/** Short runs of one concrete tenant in which the pipeline does not meet its promise. */
module Witnesses {
  import opened Prelude
  import opened Money
  import O = Outbox
  import P = Payments
  import opened Posting
  import opened Journal
  import opened Ledger
  import opened Periods
  import opened PaymentSystem
  import opened SystemInvariant
  import opened EndToEnd
  import opened RefundConservation
  import W = OutboxWorker
  import OwnerStatements
  import M = StatementRuns
  import L = LedgerRuns

  // ------------------------------------------------------------- the tenant

  const JANUARY := OwnerStatements.Statement(0, 0, None, 2024, 1, 0, 0, 0, 0)

  /** 2024-01-01 */
  const DAY := OwnerStatements.PeriodDate(JANUARY)

  const CHART := [Account(CASH, Asset, true), Account("4000", Income, true)]

  const START := System(P.Desk([], [], []), Books(CHART, [], map[]), map[], map[])

  /** A rent of 100.00 for a reservation. */
  const INPUT := P.NewPayment(None, Some(7), 3, 100.0, P.RENT, DAY)

  function Rent(status: P.PaymentStatus): P.Payment {
    P.Payment(None, Some(7), 3, 10000, P.RENT, DAY, status, Some(1), P.PendingPosting, None, false)
  }

  function Pending(key: O.EventKey): O.OutboxRow {
    O.OutboxRow(key, 1, O.RowPending, 0, None, None, None)
  }

  const DECIDED_DESK := P.Desk([Rent(P.APPROVED)], [], [Pending(P.PaymentKey(1))])

  lemma StartIsInitial()
    ensures Initial(START)
  {
  }

  lemma Hundred()
    ensures P.StoredAmount(100.0) == 10000 && P.StoredAmount(50.0) == 5000
  {
    HalfUpExact(10000);
    HalfUpExact(5000);
  }

  lemma RunOne(s: System, step: Step)
    ensures Run(s, [step]) == Apply(s, step)
  {
    assert [step][..0] == [];
    assert Run(s, []) == s;
  }

  /** Created by the tenant and approved by an administrator. */
  lemma Approved()
    ensures Run(START, [Create(INPUT), Approve(1, 1)]) == START.(desk := DECIDED_DESK)
  {
    Hundred();
    W.RunTwo(START, Create(INPUT), Approve(1, 1));
    hide P.StoredAmount;
    assert O.Enqueue([], P.PaymentKey(1), 1) == [Pending(P.PaymentKey(1))];
  }

  // ------------------------------------------------------------ one posting

  const NO_OTHERS: W.Builder := row => None

  function WorkSteps(s: System, row: nat, number: string): seq<Step>
    requires row < |s.desk.outbox|
  {
    var read := O.ClaimedRow(s.desk.outbox[row]);
    var claimed := SetOutbox(s, s.desk.outbox[row := read]);
    [Claim(row, 0, 0)] + W.EventSteps(W.State(claimed.desk, claimed.books), W.Event(row, read), 0, NO_OTHERS, number, 0)
  }

  /** One worker claims a pending event and posts what it builds. */
  lemma Work(s: System, row: nat, number: string, input: EntryInput, entry: Entry)
    requires s.tasks == map[] && row < |s.desk.outbox| && s.desk.outbox[row].status == O.RowPending && s.desk.outbox[row].nextRetryAt.None?
    requires var r := s.desk.outbox[row];
             IsPaymentEvent(r.key.eventType) && LoadEvent(s.desk, r.key.eventType, r.subject) == Some(input)
    requires Post(s.books, input, number)
             == Outcome(s.books.(entries := s.books.entries + [entry]), Ok(Receipt(|s.books.entries| + 1, number)))
    ensures var r := s.desk.outbox[row]; var id := |s.books.entries| + 1;
            var noted := NoteEvent(s.desk, r.key.eventType, r.subject, id);
            Run(s, WorkSteps(s, row, number)) ==
            s.(desk := noted.(outbox := s.desk.outbox[row := O.PostedRow(O.ClaimedRow(r), id)]),
               books := s.books.(entries := s.books.entries + [entry]))
  {
    var read := O.ClaimedRow(s.desk.outbox[row]);
    var claimed := SetOutbox(s, s.desk.outbox[row := read]);
    LoadIgnoresRows(s.desk, claimed.desk, read.key.eventType, read.subject);
    ProcessPosts(W.State(claimed.desk, claimed.books), W.Event(row, read), input, number, entry);
    hide Post, LoadEvent, Run, W.Process;
    ClaimThenProcess(s, row, number);
    NoteIgnoresRows(s.desk, claimed.desk, read.key.eventType, read.subject, |s.books.entries| + 1);
    hide NoteEvent;
  }

  lemma ClaimThenProcess(s: System, row: nat, number: string)
    requires s.tasks == map[] && row < |s.desk.outbox| && s.desk.outbox[row].status == O.RowPending && s.desk.outbox[row].nextRetryAt.None?
    ensures var read := O.ClaimedRow(s.desk.outbox[row]);
            var claimed := SetOutbox(s, s.desk.outbox[row := read]);
            var after := W.Process(W.State(claimed.desk, claimed.books), W.Event(row, read), NO_OTHERS, number, 0);
            Run(s, WorkSteps(s, row, number)) == s.(desk := after.desk, books := after.books)
  {
    hide Run, W.EventSteps, W.Process, NoteEvent;
    var read := O.ClaimedRow(s.desk.outbox[row]);
    var claimed := SetOutbox(s, s.desk.outbox[row := read]);
    var busy := claimed.(tasks := map[0 := Task(row, read, Claimed)]);
    var event := W.Event(row, read);
    var state := W.State(claimed.desk, claimed.books);
    RunOne(s, Claim(row, 0, 0));
    W.ClaimApplies(s, row, 0, 0);
    W.RunAppend(s, [Claim(row, 0, 0)], W.EventSteps(state, event, 0, NO_OTHERS, number, 0));
    W.EventRun(busy, event, 0, NO_OTHERS, number, 0);
    assert busy.tasks - {0} == map[];
  }

  lemma ProcessPosts(state: W.State, event: W.Event, input: EntryInput, number: string, entry: Entry)
    requires IsPaymentEvent(event.read.key.eventType) && event.row < |state.desk.outbox|
    requires LoadEvent(state.desk, event.read.key.eventType, event.read.subject) == Some(input)
    requires Post(state.books, input, number)
             == Outcome(state.books.(entries := state.books.entries + [entry]), Ok(Receipt(|state.books.entries| + 1, number)))
    ensures var id := |state.books.entries| + 1;
            var noted := NoteEvent(state.desk, event.read.key.eventType, event.read.subject, id);
            W.Process(state, event, NO_OTHERS, number, 0) ==
            W.State(noted.(outbox := state.desk.outbox[event.row := O.PostedRow(state.desk.outbox[event.row], id)]),
                    state.books.(entries := state.books.entries + [entry]))
  {
    hide Post, LoadEvent;
  }

  lemma NoteIgnoresRows(d: P.Desk, e: P.Desk, eventType: string, subject: int, id: nat)
    requires e.payments == d.payments && e.refunds == d.refunds
    ensures NoteEvent(e, eventType, subject, id).(outbox := d.outbox) == NoteEvent(d, eventType, subject, id)
    ensures NoteEvent(d, eventType, subject, id).outbox == d.outbox
  {
  }

  lemma LoadIgnoresRows(d: P.Desk, e: P.Desk, eventType: string, subject: int)
    requires e.payments == d.payments && e.refunds == d.refunds
    ensures LoadEvent(e, eventType, subject) == LoadEvent(d, eventType, subject)
  {
  }

  /** An acceptable entry on an open day with a new source and known accounts is added. */
  lemma Posts(b: Books, input: EntryInput, number: string)
    requires Acceptable(input.lines) && forall i :: 0 <= i < |input.lines| ==> Known(b.chart, input.lines[i].accountCode)
    requires IsDateText(input.entryDate) && InsertFault(b, input.entryDate, input.sourceModule, input.sourceId).None?
    ensures Post(b, input, number) ==
            Outcome(b.(entries := b.entries + [NewEntry(b.chart, input, number)]), Ok(Receipt(|b.entries| + 1, number)))
  {
  }

  lemma DayIsOpen()
    ensures IsDateText(DAY) && DateFault(map[], DAY).None? && Exists(ReadCivil(DAY)) && DateOnly(DAY) == DAY
  {
    OwnerStatements.PeriodDateReads(JANUARY);
  }

  lemma CodesKnown()
    ensures Known(CHART, CASH) && Known(CHART, IncomeAccount(P.RENT))
  {
    assert CHART[0].code == CASH && CHART[1].code == IncomeAccount(P.RENT);
  }

  // ---------------------------------- a reservation cancelled after a refund

  function Posted(row: O.OutboxRow, id: nat): O.OutboxRow {
    O.PostedRow(O.ClaimedRow(row), id)
  }

  const DECIDED := START.(desk := DECIDED_DESK)

  /** The payment is in the ledger. */
  function PaymentPosted(e: Entry): System {
    START.(desk := P.Desk([NotedPayment(Rent(P.APPROVED), 1)], [], [Posted(Pending(P.PaymentKey(1)), 1)]),
           books := START.books.(entries := [e]))
  }

  lemma PaymentInputSound()
    ensures var input := PaymentEntry(Rent(P.APPROVED), 1);
            && IsDateText(input.entryDate) && Acceptable(input.lines)
            && InsertFault(START.books, input.entryDate, input.sourceModule, input.sourceId).None?
            && forall i :: 0 <= i < |input.lines| ==> Known(CHART, input.lines[i].accountCode)
  {
    hide DAY, DateFault, Acceptable, Known, IsDateText, Exists, ReadCivil;
    DayIsOpen();
    CodesKnown();
    EntriesAcceptable(Rent(P.APPROVED), 1, P.Refund(1, 1, DAY, false, None), 1);
  }

  lemma PaymentIsPosted()
    ensures var input := PaymentEntry(Rent(P.APPROVED), 1);
            && IsDateText(input.entryDate)
            && (forall i :: 0 <= i < |input.lines| ==> Known(CHART, input.lines[i].accountCode) && LineAcceptable(input.lines[i]))
            && Post(START.books, input, "JE-1")
               == Outcome(START.books.(entries := [NewEntry(CHART, input, "JE-1")]), Ok(Receipt(1, "JE-1")))
  {
    hide Post, NewEntry, DAY, InsertFault, PaymentEntry, Known, LineAcceptable, IsDateText;
    var input := PaymentEntry(Rent(P.APPROVED), 1);
    PaymentInputSound();
    Posts(START.books, input, "JE-1");
    assert [] + [NewEntry(CHART, input, "JE-1")] == [NewEntry(CHART, input, "JE-1")];
  }

  lemma WorkOnPayment(input: EntryInput, e: Entry)
    requires LoadEvent(DECIDED.desk, P.APPROVED_EVENT, 1) == Some(input)
    requires Post(START.books, input, "JE-1") == Outcome(START.books.(entries := [e]), Ok(Receipt(1, "JE-1")))
    ensures Run(DECIDED, WorkSteps(DECIDED, 0, "JE-1")) == PaymentPosted(e)
  {
    hide Post, LoadEvent, Run, WorkSteps, DAY;
    assert [] + [e] == [e];
    Work(DECIDED, 0, "JE-1", input, e);
    assert [Rent(P.APPROVED)][0 := NotedPayment(Rent(P.APPROVED), 1)] == [NotedPayment(Rent(P.APPROVED), 1)];
    assert DECIDED.desk.outbox[0 := Posted(Pending(P.PaymentKey(1)), 1)] == [Posted(Pending(P.PaymentKey(1)), 1)];
  }

  lemma PaymentIsLoaded(d: P.Desk)
    requires d.payments == [Rent(P.APPROVED)]
    ensures LoadEvent(d, P.APPROVED_EVENT, 1) == Some(PaymentEntry(Rent(P.APPROVED), 1))
  {
    hide PaymentEntry;
  }

  lemma PostsThePayment() returns (e: Entry)
    ensures Run(DECIDED, WorkSteps(DECIDED, 0, "JE-1")) == PaymentPosted(e)
    ensures e.sourceModule == Some(PAYMENTS)
  {
    var input := PaymentEntry(Rent(P.APPROVED), 1);
    PaymentIsPosted();
    e := NewEntry(CHART, input, "JE-1");
    assert e.sourceModule == Some(PAYMENTS);
    hide Post, NewEntry, PaymentEntry, LoadEvent, Run, WorkSteps, PaymentPosted, Known, LineAcceptable, DAY;
    PaymentIsLoaded(DECIDED.desk);
    WorkOnPayment(input, e);
  }

  const HALF := P.Refund(1, 5000, DAY, false, None)

  /** Half of it is refunded on request. */
  function HalfRefunded(e: Entry): System {
    PaymentPosted(e).(desk := P.Desk([NotedPayment(Rent(P.APPROVED), 1)], [HALF],
                                     [Posted(Pending(P.PaymentKey(1)), 1), Pending(P.RefundKey(1))]))
  }

  lemma RefundsHalf(e: Entry)
    ensures Apply(PaymentPosted(e), CreateRefund(1, 50.0, DAY)) == HalfRefunded(e)
  {
    Hundred();
    hide P.StoredAmount;
    KeysDiffer();
    var rows := [Posted(Pending(P.PaymentKey(1)), 1)];
    assert O.FindRow(rows, P.RefundKey(1)) == 1;
    assert O.Enqueue(rows, P.RefundKey(1), 1) == rows + [Pending(P.RefundKey(1))];
  }

  lemma KeysDiffer()
    ensures P.PaymentKey(1) != P.RefundKey(1) && P.RefundKey(1) != P.RefundKey(2) && P.PaymentKey(1) != P.RefundKey(2)
  {
    assert P.APPROVED_EVENT[8] == 'a' && P.REFUND_EVENT[8] == 'r';
    assert DecimalText(1) != DecimalText(2);
  }

  /** That refund is in the ledger too. */
  function HalfPosted(e: Entry, f: Entry): System {
    START.(desk := P.Desk([NotedPayment(Rent(P.APPROVED), 1)], [NotedRefund(HALF, 2)],
                          [Posted(Pending(P.PaymentKey(1)), 1), Posted(Pending(P.RefundKey(1)), 2)]),
           books := START.books.(entries := [e, f]))
  }

  lemma RefundIsPosted(e: Entry)
    requires e.sourceModule == Some(PAYMENTS)
    ensures var input := RefundEntry(HALF, 1, NotedPayment(Rent(P.APPROVED), 1)); var b := HalfRefunded(e).books;
            && IsDateText(input.entryDate)
            && (forall i :: 0 <= i < |input.lines| ==> Known(CHART, input.lines[i].accountCode) && LineAcceptable(input.lines[i]))
            && Post(b, input, "JE-2") == Outcome(b.(entries := b.entries + [NewEntry(CHART, input, "JE-2")]), Ok(Receipt(2, "JE-2")))
  {
    var p := NotedPayment(Rent(P.APPROVED), 1);
    var input := RefundEntry(HALF, 1, p);
    var b := HalfRefunded(e).books;
    DayIsOpen();
    CodesKnown();
    EntriesAcceptable(p, 1, HALF, 1);
    assert PAYMENTS != REFUNDS by { assert |PAYMENTS| != |REFUNDS|; }
    assert FindSource(b.entries, input.sourceModule, input.sourceId) == 1;
    hide DateFault, Exists, ReadCivil, FindSource, DAY;
    Posts(b, input, "JE-2");
    hide Post, NewEntry;
  }

  lemma RefundIsLoaded(e: Entry)
    ensures var d := HalfRefunded(e).desk;
            LoadEvent(d, P.REFUND_EVENT, 1) == Some(RefundEntry(HALF, 1, NotedPayment(Rent(P.APPROVED), 1)))
  {
    hide RefundEntry;
    assert P.APPROVED_EVENT[8] == 'a' && P.REFUND_EVENT[8] == 'r';
  }

  lemma WorkOnRefund(e: Entry, input: EntryInput, f: Entry)
    requires LoadEvent(HalfRefunded(e).desk, P.REFUND_EVENT, 1) == Some(input)
    requires var b := HalfRefunded(e).books; Post(b, input, "JE-2") == Outcome(b.(entries := b.entries + [f]), Ok(Receipt(2, "JE-2")))
    ensures Run(HalfRefunded(e), WorkSteps(HalfRefunded(e), 1, "JE-2")) == HalfPosted(e, f)
  {
    hide Post, LoadEvent, Run, WorkSteps, DAY;
    var s := HalfRefunded(e);
    Work(s, 1, "JE-2", input, f);
    NotesTheRefund(s.desk);
    hide NoteEvent;
    assert s.desk.outbox[1 := Posted(Pending(P.RefundKey(1)), 2)] == HalfPosted(e, f).desk.outbox;
    assert [e] + [f] == [e, f];
  }

  lemma NotesTheRefund(d: P.Desk)
    requires d.refunds == [HALF] && P.Exists(d, 1)
    ensures NoteEvent(d, P.REFUND_EVENT, 1, 2) == d.(refunds := [NotedRefund(HALF, 2)])
  {
    assert P.APPROVED_EVENT[8] == 'a' && P.REFUND_EVENT[8] == 'r';
    assert [HALF][0 := NotedRefund(HALF, 2)] == [NotedRefund(HALF, 2)];
  }

  lemma PostsTheRefund(e: Entry) returns (f: Entry)
    requires e.sourceModule == Some(PAYMENTS)
    ensures Run(HalfRefunded(e), WorkSteps(HalfRefunded(e), 1, "JE-2")) == HalfPosted(e, f)
  {
    var input := RefundEntry(HALF, 1, NotedPayment(Rent(P.APPROVED), 1));
    RefundIsPosted(e);
    f := NewEntry(CHART, input, "JE-2");
    hide Post, Known, LineAcceptable, NewEntry, Run, LoadEvent, RefundEntry, WorkSteps, HalfPosted, DAY;
    RefundIsLoaded(e);
    WorkOnRefund(e, input, f);
  }

  /** The whole cancellation is refunded in full, on top of the half. */
  function OverRefunded(e: Entry, f: Entry): System {
    HalfPosted(e, f).(desk := HalfPosted(e, f).desk.(
      payments := [NotedPayment(Rent(P.APPROVED), 1).(status := P.REFUNDED)],
      refunds := [NotedRefund(HALF, 2), P.Refund(1, 10000, DAY, false, None)]))
  }

  lemma CancelsTheReservation(e: Entry, f: Entry)
    ensures Apply(HalfPosted(e, f), InsertRefund(1, 10000, DAY)) == OverRefunded(e, f)
  {
    hide P.PaymentKey, P.RefundKey;
  }

  /** Approve, post, refund half, post, cancel with a full refund. */
  ghost function Cancellation(e: Entry): seq<Step> {
    [Create(INPUT), Approve(1, 1)] + WorkSteps(DECIDED, 0, "JE-1") + [CreateRefund(1, 50.0, DAY)]
    + WorkSteps(HalfRefunded(e), 1, "JE-2") + [InsertRefund(1, 10000, DAY)]
  }

  /**
   * A payment of 100.00 ends with refunds of 150.00. Every event is posted, the
   * payment is settled and enqueued, and the ledger shows 50.00 where the tables
   * count a loss of 50.00.
   */
  lemma RefundsPassTheAmount() returns (e: Entry)
    ensures Initial(START)
    ensures var s := Run(START, Cancellation(e)); var d := s.desk;
            && AllPosted(s) && |d.payments| == 1 && d.payments[0].amount == 10000
            && P.RefundTotal(d.refunds, 1) == 15000
            && Settled(d.payments[0]) && Enqueued(d, 1)
            && TaggedNet(s, CASH, 1) == 5000 && DeskCount(d, 1) == -5000
  {
    e := PostsThePayment();
    var f := PostsTheRefund(e);
    Approved();
    RefundsHalf(e);
    CancelsTheReservation(e, f);
    CancellationRuns(e, f);
    OverRefundedFacts(e, f);
    StartIsInitial();
    PaymentReconciles(START, Cancellation(e), 1);
  }

  lemma CancellationRuns(e: Entry, f: Entry)
    requires Run(START, [Create(INPUT), Approve(1, 1)]) == DECIDED
    requires Run(DECIDED, WorkSteps(DECIDED, 0, "JE-1")) == PaymentPosted(e)
    requires Apply(PaymentPosted(e), CreateRefund(1, 50.0, DAY)) == HalfRefunded(e)
    requires Run(HalfRefunded(e), WorkSteps(HalfRefunded(e), 1, "JE-2")) == HalfPosted(e, f)
    requires Apply(HalfPosted(e, f), InsertRefund(1, 10000, DAY)) == OverRefunded(e, f)
    ensures Run(START, Cancellation(e)) == OverRefunded(e, f)
  {
    hide Run, Apply, WorkSteps, PaymentPosted, HalfPosted, OverRefunded;
    var a := [Create(INPUT), Approve(1, 1)];
    var b := a + WorkSteps(DECIDED, 0, "JE-1");
    var c := b + [CreateRefund(1, 50.0, DAY)];
    var d := c + WorkSteps(HalfRefunded(e), 1, "JE-2");
    W.RunAppend(START, a, WorkSteps(DECIDED, 0, "JE-1"));
    W.RunAppend(START, b, [CreateRefund(1, 50.0, DAY)]);
    RunOne(PaymentPosted(e), CreateRefund(1, 50.0, DAY));
    W.RunAppend(START, c, WorkSteps(HalfRefunded(e), 1, "JE-2"));
    W.RunAppend(START, d, [InsertRefund(1, 10000, DAY)]);
    RunOne(HalfPosted(e, f), InsertRefund(1, 10000, DAY));
  }

  lemma OverRefundedFacts(e: Entry, f: Entry)
    ensures var s := OverRefunded(e, f); var d := s.desk;
            && AllPosted(s) && P.RefundTotal(d.refunds, 1) == 15000
            && Enqueued(d, 1) && SeenRefunds(d, 1) == 5000
  {
    KeysDiffer();
    var d := OverRefunded(e, f).desk;
    assert d.outbox[0].key == P.PaymentKey(1) && d.outbox[1].key == P.RefundKey(1);
    assert RefundEnqueued(d, 1) && !RefundEnqueued(d, 2);
    assert d.refunds[..1] == [d.refunds[0]] && d.refunds[..1][..0] == [];
    assert P.RefundTotal(d.refunds[..1], 1) == 5000;
    assert TotalWhere(d, 1, 0, true) == 0;
    assert TotalWhere(d, 1, 1, true) == 5000;
    assert TotalWhere(d, 1, 2, true) == 5000;
  }

  // ------------------------------------- a posted event that fails again

  /** Both workers hold the row of the payment, enqueued again in between. */
  function TwoHolders(): System {
    var first, second := O.ClaimedRow(Pending(P.PaymentKey(1))), O.ClaimedRow(O.ClaimedRow(Pending(P.PaymentKey(1))));
    System(P.Desk([Rent(P.APPROVED)], [], [second]), START.books,
           map[0 := Task(0, first, Claimed), 1 := Task(0, second, Claimed)], map[])
  }

  /** The row of an event enqueued again while its first worker holds it. */
  function Again(): O.OutboxRow {
    O.ClaimedRow(Pending(P.PaymentKey(1))).(status := O.RowPending)
  }

  lemma EnqueuedAgain()
    ensures Apply(Apply(DECIDED, Claim(0, 0, 0)), Reprocess(1)) ==
            DECIDED.(desk := DECIDED.desk.(outbox := [Again()]), tasks := map[0 := Task(0, O.ClaimedRow(Pending(P.PaymentKey(1))), Claimed)])
  {
    hide P.PaymentKey, DAY;
    var first := Apply(DECIDED, Claim(0, 0, 0));
    assert first.desk.outbox == [O.ClaimedRow(Pending(P.PaymentKey(1)))];
    assert Apply(first, Reprocess(1)).desk.outbox == [Again()];
  }

  lemma BothClaim()
    ensures Run(DECIDED, [Claim(0, 0, 0), Reprocess(1), Claim(0, 0, 1)]) == TwoHolders()
  {
    hide Run, P.PaymentKey, DAY;
    W.RunFour(DECIDED, Claim(0, 0, 0), Reprocess(1), Claim(0, 0, 1), Claim(0, 0, 1));
    EnqueuedAgain();
    var again := Apply(Apply(DECIDED, Claim(0, 0, 0)), Reprocess(1));
    assert Apply(again, Claim(0, 0, 1)).desk.outbox == TwoHolders().desk.outbox;
  }

  function FirstSteps(): seq<Step> {
    W.EventSteps(W.State(TwoHolders().desk, TwoHolders().books), W.Event(0, TwoHolders().tasks[0].event), 0, NO_OTHERS, "JE-1", 0)
  }

  /** What the first worker leaves to the second. */
  function FirstDone(e: Entry): System {
    System(P.Desk([NotedPayment(Rent(P.APPROVED), 1)], [], [O.PostedRow(TwoHolders().desk.outbox[0], 1)]),
           START.books.(entries := [e]), map[1 := TwoHolders().tasks[1]], map[])
  }

  lemma FirstWorks(input: EntryInput, e: Entry)
    requires LoadEvent(TwoHolders().desk, P.APPROVED_EVENT, 1) == Some(input)
    requires Post(START.books, input, "JE-1") == Outcome(START.books.(entries := [e]), Ok(Receipt(1, "JE-1")))
    ensures Run(TwoHolders(), FirstSteps()) == FirstDone(e)
  {
    hide Post, LoadEvent, Run, DAY, W.EventSteps;
    var s := TwoHolders();
    assert [] + [e] == [e];
    ProcessPosts(W.State(s.desk, s.books), W.Event(0, s.tasks[0].event), input, "JE-1", e);
    W.EventRun(s, W.Event(0, s.tasks[0].event), 0, NO_OTHERS, "JE-1", 0);
    hide W.Process;
    assert s.tasks - {0} == map[1 := s.tasks[1]];
    assert s.desk.outbox[0 := O.PostedRow(s.desk.outbox[0], 1)] == [O.PostedRow(s.desk.outbox[0], 1)];
    assert [Rent(P.APPROVED)][0 := NotedPayment(Rent(P.APPROVED), 1)] == [NotedPayment(Rent(P.APPROVED), 1)];
  }

  lemma FirstPosts() returns (e: Entry)
    ensures Run(TwoHolders(), FirstSteps()) == FirstDone(e) && IsEntryFor(e, PAYMENTS, 1)
  {
    hide Post, Known, LineAcceptable, Run, LoadEvent, FirstSteps, FirstDone, DAY, IncomeAccount;
    var input := PaymentEntry(Rent(P.APPROVED), 1);
    PaymentIsPosted();
    e := NewEntry(CHART, input, "JE-1");
    assert IsEntryFor(e, PAYMENTS, 1);
    hide NewEntry, PaymentEntry, IsEntryFor;
    PaymentIsLoaded(TwoHolders().desk);
    FirstWorks(input, e);
  }

  lemma SecondFails(e: Entry)
    ensures var after := Apply(Apply(FirstDone(e), Break(1, "x")), Fail(1, 0));
            |after.desk.outbox| == 1 && after.desk.outbox[0].status == O.RowFailed && after.books.entries == [e]
  {
    hide NotedPayment, Rent, P.PaymentKey;
  }

  /** The first worker posts the payment and marks the row, the second fails and marks it again. */
  lemma PostedRowFails() returns (e: Entry)
    ensures Run(START, [Create(INPUT), Approve(1, 1)]) == DECIDED
    ensures Run(DECIDED, [Claim(0, 0, 0), Reprocess(1), Claim(0, 0, 1)]) == TwoHolders()
    ensures var before := Run(TwoHolders(), FirstSteps()); var after := Run(before, [Break(1, "x"), Fail(1, 0)]);
            && |before.desk.outbox| == 1 && before.desk.outbox[0].status == O.RowPosted
            && |after.desk.outbox| == 1 && after.desk.outbox[0].status == O.RowFailed
            && after.books.entries == [e] && IsEntryFor(e, PAYMENTS, 1)
  {
    Approved();
    BothClaim();
    e := FirstPosts();
    W.RunTwo(FirstDone(e), Break(1, "x"), Fail(1, 0));
    SecondFails(e);
    hide Run, Apply;
  }

  // ------------------------------------------------------ REFUNDED or not

  /** A processor report marks a payment REFUNDED of which nothing was refunded. */
  lemma ReportedRefundIsEarly()
    ensures var s := Run(DECIDED, [Webhook(1, P.REFUNDED)]);
            |s.desk.payments| == 1 && StandingOf(s.desk, 1) == RefundedEarly && P.RefundTotal(s.desk.refunds, 1) == 0
  {
    RunOne(DECIDED, Webhook(1, P.REFUNDED));
  }

  /** A status change read before a full refund and written after it takes the mark away. */
  lemma LateChangeUnmarks()
    ensures var s := Run(DECIDED, [ReadStatus(0, 1, P.DISPUTED, 1), CreateRefund(1, 100.0, DAY), WriteStatus(0)]);
            && |s.desk.payments| == 1 && StandingOf(s.desk, 1) == UsedUpUnmarked
            && s.desk.payments[0].status == P.DISPUTED && P.RefundTotal(s.desk.refunds, 1) == 10000
  {
    Hundred();
    W.RunFour(DECIDED, ReadStatus(0, 1, P.DISPUTED, 1), CreateRefund(1, 100.0, DAY), WriteStatus(0), WriteStatus(0));
    hide P.StoredAmount, O.Enqueue;
    var read := Apply(DECIDED, ReadStatus(0, 1, P.DISPUTED, 1));
    var refunded := Apply(read, CreateRefund(1, 100.0, DAY));
    assert refunded.desk.refunds == [P.Refund(1, 10000, DAY, false, None)];
    assert refunded.desk.refunds[..0] == [];
    assert P.RefundTotal(refunded.desk.refunds, 1) == 10000;
  }

  // --------------------------------- a statement replaced after its posting

  const STATEMENT_CHART := [Account("4000", Income, true), Account("4200", Income, true),
                            Account("2100", Liability, true), Account(CASH, Asset, true)]

  /** 100.00 gross, 10.00 commission, 90.00 for the owner. */
  const FIRST := OwnerStatements.Statement(1, 2, None, 2024, 1, 10000, 0, 1000, 9000)

  const SECOND := M.Replaced(FIRST, 10000, 0, 2000, 8000)

  const NO_STATEMENT := M.State([], Books(STATEMENT_CHART, [], map[]), map[])

  function WithRow(row: OwnerStatements.Statement, entries: seq<Entry>, loaded: map<nat, M.Reading>): M.State {
    M.State([Some(row)], Books(STATEMENT_CHART, entries, map[]), loaded)
  }

  function ReadFirst(): map<nat, M.Reading> {
    map[0 := M.Recording(1, FIRST)]
  }

  function ReadSecond(): map<nat, M.Reading> {
    map[0 := M.Paying(1, SECOND, DAY)]
  }

  lemma StatementCodesKnown()
    ensures Known(STATEMENT_CHART, OwnerStatements.RENT_INCOME) && Known(STATEMENT_CHART, OwnerStatements.COMMISSION_INCOME)
    ensures Known(STATEMENT_CHART, OwnerStatements.OWNER_PAYABLE) && Known(STATEMENT_CHART, CASH)
  {
    assert STATEMENT_CHART[0].code == OwnerStatements.RENT_INCOME && STATEMENT_CHART[1].code == OwnerStatements.COMMISSION_INCOME;
    assert STATEMENT_CHART[2].code == OwnerStatements.OWNER_PAYABLE && STATEMENT_CHART[3].code == CASH;
  }

  const EVERY: M.TagChoice := t => true

  lemma FirstInputSound()
    ensures var input := OwnerStatements.GeneratedEntry(FIRST, 1); var b := Books(STATEMENT_CHART, [], map[]);
            && IsDateText(input.entryDate) && Acceptable(input.lines)
            && InsertFault(b, input.entryDate, input.sourceModule, input.sourceId).None?
            && forall i :: 0 <= i < |input.lines| ==> Known(STATEMENT_CHART, input.lines[i].accountCode)
  {
    hide Known, Acceptable, IsDateText, OwnerStatements.PeriodDate, OwnerStatements.GeneratedLines;
    OwnerStatements.PeriodDateReads(FIRST);
    OwnerStatements.GeneratedAcceptableIff(FIRST);
    FirstLinesKnown();
  }

  lemma FirstLinesKnown()
    ensures var lines := OwnerStatements.GeneratedLines(FIRST);
            forall i :: 0 <= i < |lines| ==> Known(STATEMENT_CHART, lines[i].accountCode)
  {
    StatementCodesKnown();
    var lines := OwnerStatements.GeneratedLines(FIRST);
    assert lines == [OwnerStatements.GrossLine(FIRST), OwnerStatements.CommissionLine(FIRST), OwnerStatements.PayableLine(FIRST)];
    hide Known, OwnerStatements.GeneratedLines;
  }

  lemma RecordsFirst() returns (e: Entry)
    ensures M.Apply(WithRow(SECOND, [], ReadFirst()), M.Enter(0, "JE-1")) == WithRow(SECOND, [e], map[])
    ensures e.sourceModule == Some(OwnerStatements.STATEMENTS)
  {
    hide Known, LineAcceptable, IsDateText, InsertFault, Post, OwnerStatements.GeneratedLines, OwnerStatements.PeriodDate;
    var b := Books(STATEMENT_CHART, [], map[]);
    var input := OwnerStatements.GeneratedEntry(FIRST, 1);
    FirstInputSound();
    Posts(b, input, "JE-1");
    e := NewEntry(b.chart, input, "JE-1");
    assert e.sourceModule == Some(OwnerStatements.STATEMENTS);
    assert M.EntryOf(ReadFirst()[0]) == input;
    assert [] + [e] == [e] && ReadFirst() - {0} == map[];
  }

  lemma SecondInputSound(e: Entry)
    requires e.sourceModule == Some(OwnerStatements.STATEMENTS)
    ensures var input := OwnerStatements.TransferEntry(SECOND, 1, DAY); var b := Books(STATEMENT_CHART, [e], map[]);
            && IsDateText(input.entryDate) && Acceptable(input.lines)
            && InsertFault(b, input.entryDate, input.sourceModule, input.sourceId).None?
            && forall i :: 0 <= i < |input.lines| ==> Known(STATEMENT_CHART, input.lines[i].accountCode)
  {
    hide Known, Acceptable, IsDateText, DAY, DateFault, Exists, ReadCivil;
    var input := OwnerStatements.TransferEntry(SECOND, 1, DAY);
    DayIsOpen();
    OwnerStatements.TransferAcceptable(SECOND);
    StatementCodesKnown();
    assert |OwnerStatements.STATEMENTS| != |OwnerStatements.TRANSFERS|;
    assert FindSource([e], input.sourceModule, input.sourceId) == 1;
  }

  lemma PaysSecond(e: Entry) returns (f: Entry)
    requires e.sourceModule == Some(OwnerStatements.STATEMENTS)
    ensures M.Apply(WithRow(SECOND, [e], ReadSecond()), M.Enter(0, "JE-2")) == WithRow(SECOND, [e, f], map[])
  {
    hide Known, LineAcceptable, IsDateText, InsertFault, Post, OwnerStatements.TransferLines, DAY;
    var b := Books(STATEMENT_CHART, [e], map[]);
    var input := OwnerStatements.TransferEntry(SECOND, 1, DAY);
    SecondInputSound(e);
    Posts(b, input, "JE-2");
    f := NewEntry(b.chart, input, "JE-2");
    assert M.EntryOf(ReadSecond()[0]) == input;
    assert [e] + [f] == [e, f] && ReadSecond() - {0} == map[];
  }

  const REPLACE := M.Replace(1, 10000, 0, 2000, 8000)

  function StatementSteps(): seq<M.Step> {
    [M.AddRow(FIRST), M.LoadGenerated(0, 1), REPLACE, M.Enter(0, "JE-1"), M.LoadTransfer(0, 1, DAY), M.Enter(0, "JE-2")]
  }

  lemma OneMore(before: M.State, steps: seq<M.Step>, last: M.Step)
    requires M.Run(NO_STATEMENT, steps) == before
    ensures var more := steps + [last];
            && M.Run(NO_STATEMENT, more) == M.Apply(before, last)
            && M.RecordedNet(NO_STATEMENT, more, 1, EVERY) == M.RecordedNet(NO_STATEMENT, steps, 1, EVERY)
               + (if M.Records(before, last, 1) then before.loaded[last.worker].row.net else 0)
            && M.PaidNet(NO_STATEMENT, more, 1, EVERY) == M.PaidNet(NO_STATEMENT, steps, 1, EVERY)
               + (if M.Pays(before, last, 1) then before.loaded[last.worker].row.net else 0)
  {
    hide M.Apply, M.Adds;
    assert (steps + [last])[..|steps|] == steps;
  }

  /**
   * A worker reads 90.00, the amounts are replaced, the worker records the 90.00
   * it read, and 80.00 are paid: 10.00 stay owed.
   */
  lemma ReplacementLeavesABalance()
    ensures M.Initial(NO_STATEMENT)
    ensures var after := M.Run(NO_STATEMENT, StatementSteps()).books;
            M.StatementNet(after.chart, after.entries, 1, EVERY) == -1000
  {
    hide L.Sound, EVERY, M.Apply, StatementSteps, ReadFirst, ReadSecond, WithRow;
    StatementStarts();
    var e := RecordsFirst();
    var f := PaysSecond(e);
    SixSteps(e, f);
    M.OwedOverRuns(NO_STATEMENT, StatementSteps(), 1, EVERY);
  }

  lemma StatementStarts()
    ensures M.Initial(NO_STATEMENT)
  {
  }

  lemma SixSteps(e: Entry, f: Entry)
    requires M.Apply(WithRow(SECOND, [], ReadFirst()), M.Enter(0, "JE-1")) == WithRow(SECOND, [e], map[])
    requires M.Apply(WithRow(SECOND, [e], ReadSecond()), M.Enter(0, "JE-2")) == WithRow(SECOND, [e, f], map[])
    ensures M.RecordedNet(NO_STATEMENT, StatementSteps(), 1, EVERY) == 9000 && M.PaidNet(NO_STATEMENT, StatementSteps(), 1, EVERY) == 8000
  {
    hide M.Apply, M.Run, M.RecordedNet, M.PaidNet, M.Adds, M.RowAt, WithRow, ReadFirst, ReadSecond, EVERY, DAY, NO_STATEMENT, FIRST, SECOND,
      REPLACE, StatementSteps;
    SimpleSteps(e);
    StepsJoined();
    EntersCount(e, f);
    var one := [M.AddRow(FIRST)];
    var two := one + [M.LoadGenerated(0, 1)];
    var three := two + [REPLACE];
    var four := three + [M.Enter(0, "JE-1")];
    var five := four + [M.LoadTransfer(0, 1, DAY)];
    assert [] + [M.AddRow(FIRST)] == one;
    OneMore(NO_STATEMENT, [], M.AddRow(FIRST));
    OneMore(WithRow(FIRST, [], map[]), one, M.LoadGenerated(0, 1));
    OneMore(WithRow(FIRST, [], ReadFirst()), two, REPLACE);
    OneMore(WithRow(SECOND, [], ReadFirst()), three, M.Enter(0, "JE-1"));
    OneMore(WithRow(SECOND, [e], map[]), four, M.LoadTransfer(0, 1, DAY));
    OneMore(WithRow(SECOND, [e], ReadSecond()), five, M.Enter(0, "JE-2"));
  }

  lemma StepsJoined()
    ensures ((((([M.AddRow(FIRST)] + [M.LoadGenerated(0, 1)]) + [REPLACE]) + [M.Enter(0, "JE-1")]) + [M.LoadTransfer(0, 1, DAY)])
             + [M.Enter(0, "JE-2")]) == StatementSteps()
  {
    hide DAY, FIRST, REPLACE;
  }

  /** Which entering step records and which pays, and that the change of amounts does neither. */
  lemma EntersCount(e: Entry, f: Entry)
    requires M.Apply(WithRow(SECOND, [], ReadFirst()), M.Enter(0, "JE-1")) == WithRow(SECOND, [e], map[])
    requires M.Apply(WithRow(SECOND, [e], ReadSecond()), M.Enter(0, "JE-2")) == WithRow(SECOND, [e, f], map[])
    ensures var s, t := WithRow(SECOND, [], ReadFirst()), WithRow(SECOND, [e], ReadSecond());
            && M.Records(s, M.Enter(0, "JE-1"), 1) && !M.Pays(s, M.Enter(0, "JE-1"), 1) && s.loaded[0].row.net == 9000
            && !M.Records(t, M.Enter(0, "JE-2"), 1) && M.Pays(t, M.Enter(0, "JE-2"), 1) && t.loaded[0].row.net == 8000
    ensures REPLACE.Replace?
  {
    hide M.Apply, DAY;
  }

  lemma SimpleSteps(e: Entry)
    ensures M.Run(NO_STATEMENT, []) == NO_STATEMENT && M.Apply(NO_STATEMENT, M.AddRow(FIRST)) == WithRow(FIRST, [], map[])
    ensures M.RecordedNet(NO_STATEMENT, [], 1, EVERY) == 0 == M.PaidNet(NO_STATEMENT, [], 1, EVERY)
    ensures M.Apply(WithRow(FIRST, [], map[]), M.LoadGenerated(0, 1)) == WithRow(FIRST, [], ReadFirst())
    ensures M.Apply(WithRow(FIRST, [], ReadFirst()), REPLACE) == WithRow(SECOND, [], ReadFirst())
    ensures M.Apply(WithRow(SECOND, [e], map[]), M.LoadTransfer(0, 1, DAY)) == WithRow(SECOND, [e], ReadSecond())
  {
    hide DAY;
    assert [] + [Some(FIRST)] == [Some(FIRST)];
  }
}
