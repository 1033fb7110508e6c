/** What reconciliation means once every payment and refund event is posted. */
module EndToEnd {
  import opened Prelude
  import O = Outbox
  import P = Payments
  import opened Posting
  import opened Journal
  import opened Ledger
  import L = LedgerRuns
  import opened PaymentSystem
  import opened SystemInvariant
  import opened SystemSteps
  import opened Reconciliation

  ghost predicate AllPosted(s: System) {
    forall i :: 0 <= i < |s.desk.outbox| && IsPaymentEvent(s.desk.outbox[i].key.eventType) ==>
      s.desk.outbox[i].status == O.RowPosted
  }

  ghost predicate Enqueued(d: P.Desk, id: nat) {
    HasRow(d.outbox, P.PaymentKey(id))
  }

  /** Refunds of a reservation are inserted without a row. */
  ghost predicate RefundEnqueued(d: P.Desk, id: nat) {
    HasRow(d.outbox, P.RefundKey(id))
  }

  // ------------------------------------------------------------- bijection

  lemma PostedRowHasEntry(s: System, eventType: string, key: O.EventKey, id: nat)
    requires Inv(s) && AllPosted(s) && HasRow(s.desk.outbox, key)
    requires (eventType == P.APPROVED_EVENT && key == P.PaymentKey(id)) || (eventType == P.REFUND_EVENT && key == P.RefundKey(id))
    ensures HasEntry(s.books.entries, ModuleOf(eventType), id)
  {
    var i :| 0 <= i < |s.desk.outbox| && s.desk.outbox[i].key == key;
    var row := s.desk.outbox[i];
    assert SubjectSound(s.desk, row) && PostedSound(s.books, row);
    DecimalTextInjective(row.subject, id);
  }

  /**
   * Exactly-once effect: whatever workers, retries and crashes a run contains,
   * two of its entries never share the source of one payment or refund.
   */
  lemma EntryUnique(start: System, steps: seq<Step>, family: string, id: nat, i: nat, j: nat)
    requires Initial(start) && i < |Run(start, steps).books.entries| && j < |Run(start, steps).books.entries|
    requires IsEntryFor(Run(start, steps).books.entries[i], family, id)
    requires IsEntryFor(Run(start, steps).books.entries[j], family, id)
    ensures i == j
  {
    ReachableInv(start, steps);
  }

  /**
   * Once all their events are posted, enqueued payments and enqueued refunds
   * correspond one to one to the journal entries of their families.
   */
  lemma EntriesMatchDesk(s: System)
    requires Inv(s) && AllPosted(s)
    ensures forall id: nat :: 1 <= id <= |s.desk.payments| ==>
              (Enqueued(s.desk, id) <==> HasEntry(s.books.entries, PAYMENTS, id))
    ensures forall id: nat :: 1 <= id <= |s.desk.refunds| ==>
              (RefundEnqueued(s.desk, id) <==> HasEntry(s.books.entries, REFUNDS, id))
    ensures forall i :: 0 <= i < |s.books.entries| && s.books.entries[i].sourceModule == Some(PAYMENTS) ==>
              exists id: nat :: 1 <= id <= |s.desk.payments| && Enqueued(s.desk, id) && IsEntryFor(s.books.entries[i], PAYMENTS, id)
    ensures forall i :: 0 <= i < |s.books.entries| && s.books.entries[i].sourceModule == Some(REFUNDS) ==>
              exists id: nat :: 1 <= id <= |s.desk.refunds| && RefundEnqueued(s.desk, id) && IsEntryFor(s.books.entries[i], REFUNDS, id)
  {
    forall id: nat | 1 <= id <= |s.desk.payments|
      ensures Enqueued(s.desk, id) <==> HasEntry(s.books.entries, PAYMENTS, id)
    {
      if Enqueued(s.desk, id) { PostedRowHasEntry(s, P.APPROVED_EVENT, P.PaymentKey(id), id); }
      EntryMeansEnqueued(s, id);
    }
    forall id: nat | 1 <= id <= |s.desk.refunds|
      ensures RefundEnqueued(s.desk, id) <==> HasEntry(s.books.entries, REFUNDS, id)
    {
      if RefundEnqueued(s.desk, id) { PostedRowHasEntry(s, P.REFUND_EVENT, P.RefundKey(id), id); }
      EntryMeansEnqueued(s, id);
    }
    forall i | 0 <= i < |s.books.entries| ensures Explained(s.desk, s.books.entries[i]) {
    }
  }

  lemma EntryMeansEnqueued(s: System, id: nat)
    requires Inv(s)
    ensures HasEntry(s.books.entries, PAYMENTS, id) ==> Enqueued(s.desk, id)
    ensures HasEntry(s.books.entries, REFUNDS, id) ==> RefundEnqueued(s.desk, id)
  {
    if i :| 0 <= i < |s.books.entries| && IsEntryFor(s.books.entries[i], PAYMENTS, id) {
      assert Explained(s.desk, s.books.entries[i]);
      var known: nat :| 1 <= known <= |s.desk.payments| && IsEntryFor(s.books.entries[i], PAYMENTS, known)
        && HasRow(s.desk.outbox, P.PaymentKey(known));
      DecimalTextInjective(id, known);
    }
    if i :| 0 <= i < |s.books.entries| && IsEntryFor(s.books.entries[i], REFUNDS, id) {
      assert Explained(s.desk, s.books.entries[i]);
      var known: nat :| 1 <= known <= |s.desk.refunds| && IsEntryFor(s.books.entries[i], REFUNDS, known)
        && HasRow(s.desk.outbox, P.RefundKey(known));
      DecimalTextInjective(id, known);
    }
  }

  // ----------------------------------------------------------------- totals

  /** Amounts of the enqueued payments numbered 1 to n. */
  ghost function EnqueuedAmount(d: P.Desk, n: nat): nat
    requires n <= |d.payments|
  {
    if n == 0 then 0 else EnqueuedAmount(d, n - 1) + if Enqueued(d, n) then d.payments[n - 1].amount else 0
  }

  /** Amounts of the enqueued refunds numbered 1 to n. */
  ghost function EnqueuedRefunds(d: P.Desk, n: nat): nat
    requires n <= |d.refunds|
  {
    if n == 0 then 0 else EnqueuedRefunds(d, n - 1) + if RefundEnqueued(d, n) then d.refunds[n - 1].amount else 0
  }

  const ON_CASH: Choice := (code, payment) => code == CASH

  lemma {:induction false} CashOfPayments(s: System, n: nat)
    requires Inv(s) && AllPosted(s) && n <= |s.desk.payments|
    ensures PaymentsEffect(s.desk, s.books.entries, ON_CASH, n) == EnqueuedAmount(s.desk, n)
  {
    hide Inv, AllPosted, Enqueued, HasEntry;
    if n > 0 {
      CashOfPayments(s, n - 1);
      EntriesMatchDesk(s);
    }
  }

  lemma {:induction false} CashOfRefunds(s: System, n: nat)
    requires Inv(s) && AllPosted(s) && n <= |s.desk.refunds|
    ensures RefundsEffect(s.desk, s.books.entries, ON_CASH, n) == EnqueuedRefunds(s.desk, n)
  {
    if n > 0 {
      CashOfRefunds(s, n - 1);
      EntriesMatchDesk(s);
      assert RefundSound(s.desk, n - 1);
      hide Inv, AllPosted, RefundEnqueued, HasEntry;
    }
  }

  /** The net debit on cash is the enqueued payments less the enqueued refunds. */
  lemma CashReconciles(start: System, steps: seq<Step>)
    requires Initial(start) && AllPosted(Run(start, steps))
    ensures var s := Run(start, steps);
            SourcedNet(s.books.chart, s.books.entries, ON_CASH) ==
            EnqueuedAmount(s.desk, |s.desk.payments|) - EnqueuedRefunds(s.desk, |s.desk.refunds|)
  {
    var s := Run(start, steps);
    RunAgrees(start, steps, ON_CASH);
    CashOfPayments(s, |s.desk.payments|);
    CashOfRefunds(s, |s.desk.refunds|);
  }

  // --------------------------------------------------------- one payment

  function OnPayment(account: string, id: nat): Choice {
    (code, payment) => code == account && payment == Some(id)
  }

  /** Cash is debited by a payment, every other account credited. */
  function OnSide(account: string, amount: int): int {
    if account == CASH then amount else -amount
  }

  lemma {:induction false} PaymentsEffectOfOne(s: System, account: string, id: nat, n: nat)
    requires Inv(s) && AllPosted(s) && n <= |s.desk.payments| && 1 <= id <= |s.desk.payments|
    requires account == CASH || account == IncomeAccount(s.desk.payments[id - 1].kind)
    ensures PaymentsEffect(s.desk, s.books.entries, OnPayment(account, id), n) ==
            if id <= n && Enqueued(s.desk, id) then OnSide(account, s.desk.payments[id - 1].amount) else 0
  {
    hide Inv, AllPosted, Enqueued, HasEntry;
    if n > 0 {
      PaymentsEffectOfOne(s, account, id, n - 1);
      EntriesMatchDesk(s);
    }
  }

  /** Refunds of one payment among the first n, with an event or without one. */
  ghost function TotalWhere(d: P.Desk, id: int, n: nat, enqueued: bool): nat
    requires n <= |d.refunds|
  {
    if n == 0 then 0
    else
      TotalWhere(d, id, n - 1, enqueued)
      + if d.refunds[n - 1].paymentId == id && RefundEnqueued(d, n) == enqueued then d.refunds[n - 1].amount else 0
  }

  /** Refunds of a payment that the ledger will see. */
  ghost function SeenRefunds(d: P.Desk, id: int): nat {
    TotalWhere(d, id, |d.refunds|, true)
  }

  /** Refunds of a payment that no event will ever carry to the ledger. */
  ghost function UnseenRefunds(d: P.Desk, id: int): nat {
    TotalWhere(d, id, |d.refunds|, false)
  }

  lemma {:induction false} SeenAndUnseen(d: P.Desk, id: int, n: nat)
    requires n <= |d.refunds|
    ensures TotalWhere(d, id, n, true) + TotalWhere(d, id, n, false) == P.RefundTotal(d.refunds[..n], id)
  {
    if n > 0 {
      SeenAndUnseen(d, id, n - 1);
      assert d.refunds[..n][..n - 1] == d.refunds[..n - 1];
    }
  }

  ghost predicate AllRefundsEnqueued(d: P.Desk, id: int) {
    forall k :: 0 <= k < |d.refunds| && d.refunds[k].paymentId == id ==> RefundEnqueued(d, k + 1)
  }

  lemma {:induction false} NoneUnseen(d: P.Desk, id: int, n: nat)
    requires DeskSound(d) && n <= |d.refunds|
    ensures TotalWhere(d, id, n, false) == 0 <==>
            forall k :: 0 <= k < n && d.refunds[k].paymentId == id ==> RefundEnqueued(d, k + 1)
  {
    if n > 0 {
      NoneUnseen(d, id, n - 1);
      assert RefundSound(d, n - 1);
    }
  }

  lemma {:induction false} RefundsEffectOfOne(s: System, account: string, id: nat, n: nat)
    requires Inv(s) && AllPosted(s) && n <= |s.desk.refunds| && 1 <= id <= |s.desk.payments|
    requires account == CASH || account == IncomeAccount(s.desk.payments[id - 1].kind)
    ensures RefundsEffect(s.desk, s.books.entries, OnPayment(account, id), n) == OnSide(account, TotalWhere(s.desk, id, n, true))
  {
    if n > 0 {
      RefundsEffectOfOne(s, account, id, n - 1);
      EntriesMatchDesk(s);
      RefundEffectOfOne(s, account, id, n - 1);
      hide Inv, AllPosted, RefundEffect, RefundEnqueued, HasEntry;
    }
  }

  lemma RefundEffectOfOne(s: System, account: string, id: nat, k: nat)
    requires Inv(s) && k < |s.desk.refunds| && 1 <= id <= |s.desk.payments|
    requires account == CASH || account == IncomeAccount(s.desk.payments[id - 1].kind)
    ensures RefundEffect(s.desk, OnPayment(account, id), k) ==
            OnSide(account, if s.desk.refunds[k].paymentId == id then s.desk.refunds[k].amount else 0)
  {
    assert RefundSound(s.desk, k);
  }

  /** A choice by the tags as they are stored: deleting a payment clears its tag on every line. */
  function AsStored(d: P.Desk, pick: Choice): Choice {
    (code: string, payment: Option<int>) => pick(code, if payment.Some? && !P.Exists(d, payment.value) then None else payment)
  }

  /** The agreement of every run holds of the tags as they are stored, too. */
  lemma AgreesAsStored(start: System, steps: seq<Step>, pick: Choice)
    requires Initial(start)
    ensures Agrees(Run(start, steps), AsStored(Run(start, steps).desk, pick))
  {
    RunAgrees(start, steps, AsStored(Run(start, steps).desk, pick));
  }

  /** Net debit of the lines tagged with a payment on one account. */
  function TaggedNet(s: System, account: string, id: nat): int {
    SourcedNet(s.books.chart, s.books.entries, OnPayment(account, id))
  }

  /**
   * The lines tagged with a payment leave its amount, if it was enqueued, less
   * its enqueued refunds on cash and, on the credit side, on its income or
   * deposit account. (The lines of a deleted payment carry no tag any more.)
   */
  lemma PaymentReconciles(start: System, steps: seq<Step>, id: nat)
    requires Initial(start) && AllPosted(Run(start, steps)) && P.Exists(Run(start, steps).desk, id)
    ensures var s := Run(start, steps);
            var due := (if Enqueued(s.desk, id) then s.desk.payments[id - 1].amount else 0) - SeenRefunds(s.desk, id);
            TaggedNet(s, CASH, id) == due && TaggedNet(s, IncomeAccount(s.desk.payments[id - 1].kind), id) == -due
  {
    var s := Run(start, steps);
    var income := IncomeAccount(s.desk.payments[id - 1].kind);
    RunAgrees(start, steps, OnPayment(CASH, id));
    RunAgrees(start, steps, OnPayment(income, id));
    hide Inv, AllPosted, Run;
    PaymentsEffectOfOne(s, CASH, id, |s.desk.payments|);
    PaymentsEffectOfOne(s, income, id, |s.desk.payments|);
    RefundsEffectOfOne(s, CASH, id, |s.desk.refunds|);
    RefundsEffectOfOne(s, income, id, |s.desk.refunds|);
  }

  // -------------------------------------------------- what the tables count

  /** Money the tables count as received: approved, perhaps refunded since, and not deleted. */
  predicate Settled(p: P.Payment) {
    !p.deleted && (p.status == P.APPROVED || p.status == P.REFUNDED)
  }

  /** What the payment tables count for a payment: its amount if settled, less all its refunds. */
  function DeskCount(d: P.Desk, id: nat): int
    requires P.Exists(d, id)
  {
    (if Settled(d.payments[id - 1]) then d.payments[id - 1].amount else 0) - P.RefundTotal(d.refunds, id)
  }

  /**
   * The ledger shows what the tables count for a payment exactly when it is
   * settled if and only if it was enqueued and all its refunds were enqueued, or
   * when it never reached the ledger and refunds without an event give back
   * exactly its amount.
   */
  lemma DeskCountsIff(start: System, steps: seq<Step>, id: nat)
    requires Initial(start) && AllPosted(Run(start, steps)) && P.Exists(Run(start, steps).desk, id)
    ensures var s := Run(start, steps); var p := s.desk.payments[id - 1];
            TaggedNet(s, CASH, id) == DeskCount(s.desk, id) <==>
            || ((Settled(p) <==> Enqueued(s.desk, id)) && AllRefundsEnqueued(s.desk, id))
            || (Settled(p) && !Enqueued(s.desk, id) && UnseenRefunds(s.desk, id) == p.amount)
  {
    var s := Run(start, steps);
    PaymentReconciles(start, steps, id);
    ReachableInv(start, steps);
    assert s.desk.payments[id - 1].amount >= 1;
    SeenAndUnseen(s.desk, id, |s.desk.refunds|);
    assert s.desk.refunds[..|s.desk.refunds|] == s.desk.refunds;
    NoneUnseen(s.desk, id, |s.desk.refunds|);
    hide Inv, Run, AllPosted, TaggedNet, Enqueued, RefundEnqueued, P.RefundTotal, TotalWhere;
  }

  // ----------------------------------------------------- the whole difference

  function SettledAmount(payments: seq<P.Payment>): nat {
    if payments == [] then 0
    else
      var last := payments[|payments| - 1];
      SettledAmount(payments[..|payments| - 1]) + if Settled(last) then last.amount else 0
  }

  /** The refund is in the tables: deleting its payment deletes it. */
  predicate RefundExists(d: P.Desk, id: nat)
    requires 1 <= id <= |d.refunds|
  {
    P.Exists(d, d.refunds[id - 1].paymentId)
  }

  function RefundedAmount(d: P.Desk, n: nat): nat
    requires n <= |d.refunds|
  {
    if n == 0 then 0 else RefundedAmount(d, n - 1) + if RefundExists(d, n) then d.refunds[n - 1].amount else 0
  }

  /** Settled payments numbered 1 to n that the ledger never gets. */
  ghost function MissingPayments(d: P.Desk, n: nat): nat
    requires n <= |d.payments|
  {
    if n == 0 then 0
    else
      MissingPayments(d, n - 1)
      + if Settled(d.payments[n - 1]) && !Enqueued(d, n) then d.payments[n - 1].amount else 0
  }

  /** Payments numbered 1 to n that the ledger gets though they are not settled any more. */
  ghost function LapsedPayments(d: P.Desk, n: nat): nat
    requires n <= |d.payments|
  {
    if n == 0 then 0
    else
      LapsedPayments(d, n - 1)
      + if !Settled(d.payments[n - 1]) && Enqueued(d, n) then d.payments[n - 1].amount else 0
  }

  /** Refunds numbered 1 to n that the ledger never gets. */
  ghost function MissingRefunds(d: P.Desk, n: nat): nat
    requires n <= |d.refunds|
  {
    if n == 0 then 0
    else
      MissingRefunds(d, n - 1)
      + if RefundExists(d, n) && !RefundEnqueued(d, n) then d.refunds[n - 1].amount else 0
  }

  /** Refunds numbered 1 to n that the ledger gets though they were deleted with their payment. */
  ghost function LapsedRefunds(d: P.Desk, n: nat): nat
    requires n <= |d.refunds|
  {
    if n == 0 then 0
    else
      LapsedRefunds(d, n - 1)
      + if !RefundExists(d, n) && RefundEnqueued(d, n) then d.refunds[n - 1].amount else 0
  }

  lemma {:induction false} PaymentsSplit(d: P.Desk, n: nat)
    requires n <= |d.payments|
    ensures EnqueuedAmount(d, n) == SettledAmount(d.payments[..n]) - MissingPayments(d, n) + LapsedPayments(d, n)
  {
    if n > 0 {
      PaymentsSplit(d, n - 1);
      assert d.payments[..n][..n - 1] == d.payments[..n - 1];
    }
  }

  lemma {:induction false} RefundsSplit(d: P.Desk, n: nat)
    requires n <= |d.refunds|
    ensures EnqueuedRefunds(d, n) == RefundedAmount(d, n) - MissingRefunds(d, n) + LapsedRefunds(d, n)
  {
    if n > 0 { RefundsSplit(d, n - 1); }
  }

  /**
   * In every run, once every event is posted: the cash of the ledger is the
   * settled payments less the refunds in the tables, but for exactly four kinds of
   * rows: payments and refunds that no event carried to the ledger, and those in
   * the ledger that the tables do not count any more.
   */
  lemma CashDifference(start: System, steps: seq<Step>)
    requires Initial(start) && AllPosted(Run(start, steps))
    ensures var s := Run(start, steps); var d := s.desk;
            SourcedNet(s.books.chart, s.books.entries, ON_CASH) ==
            SettledAmount(d.payments) - RefundedAmount(d, |d.refunds|)
            - MissingPayments(d, |d.payments|) + LapsedPayments(d, |d.payments|)
            + MissingRefunds(d, |d.refunds|) - LapsedRefunds(d, |d.refunds|)
  {
    var d := Run(start, steps).desk;
    CashReconciles(start, steps);
    PaymentsSplit(d, |d.payments|);
    RefundsSplit(d, |d.refunds|);
    assert d.payments[..|d.payments|] == d.payments;
  }

  lemma ReachableInv(start: System, steps: seq<Step>)
    requires Initial(start)
    ensures Inv(Run(start, steps))
  {
    InitialInv(start);
    RunInv(start, steps);
  }

  /** Two steps that leave a settled payment no event will ever carry to the ledger. */
  lemma WebhookGap(start: System, payment: P.NewPayment)
    requires Initial(start) && P.AmountAccepted(payment.amount)
    ensures var s := Run(start, [Create(payment), Webhook(1, P.APPROVED)]);
            && AllPosted(s) && |s.desk.payments| == 1 && Settled(s.desk.payments[0])
            && TaggedNet(s, CASH, 1) == 0 < s.desk.payments[0].amount
  {
    var steps := [Create(payment), Webhook(1, P.APPROVED)];
    assert steps[..1] == [Create(payment)] && steps[..1][..0] == [];
    assert Run(start, steps[..1][..0]) == start;
    assert Run(start, steps[..1]) == Apply(start, Create(payment));
  }

  /**
   * A refund of a reservation is invisible to the ledger: with every event
   * posted before it, every event is posted after it, the ledger is the same and
   * the tables count less.
   */
  lemma ReservationRefundUnseen(s: System, id: int, cents: nat, date: string)
    requires Inv(s) && AllPosted(s) && Apply(s, InsertRefund(id, cents, date)).desk != s.desk
    ensures 1 <= id <= |s.desk.payments|
    ensures var after := Apply(s, InsertRefund(id, cents, date));
            && AllPosted(after) && after.books == s.books
            && TaggedNet(after, CASH, id) == TaggedNet(s, CASH, id)
            && DeskCount(after.desk, id) == DeskCount(s.desk, id) - cents < DeskCount(s.desk, id)
  {
    var after := Apply(s, InsertRefund(id, cents, date));
    assert after.desk.refunds[..|s.desk.refunds|] == s.desk.refunds;
  }
}
