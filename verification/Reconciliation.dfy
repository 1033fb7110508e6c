/**
 * The ledger agrees with the payments it was fed: in every reachable state the
 * entries of the payment families net, account by account and payment by
 * payment, to the payments that reached the ledger less their refunds.
 */
module Reconciliation {
  import opened Prelude
  import O = Outbox
  import P = Payments
  import opened Posting
  import opened Journal
  import opened Ledger
  import L = LedgerRuns
  import H = LedgerHistory
  import opened PaymentSystem
  import opened SystemInvariant
  import opened SystemSteps

  /** Any choice of lines by account code and payment tag. */
  type Choice = (string, Option<int>) -> bool

  function Coded(chart: seq<Account>, pick: Choice): Selector {
    (a: nat, t: Tags) => a < |chart| && pick(chart[a].code, t.paymentId)
  }

  /** Net debit of the chosen lines over the entries of the two payment families. */
  function SourcedNet(chart: seq<Account>, entries: seq<Entry>, pick: Choice): int {
    if entries == [] then 0
    else
      var last := entries[|entries| - 1];
      SourcedNet(chart, entries[..|entries| - 1], pick)
      + if IsPaymentSource(last.sourceModule) then Net(last.lines, Coded(chart, pick)) else 0
  }

  /** A payment debits cash and credits its income or deposit account. */
  function Effect(pick: Choice, kind: P.PaymentType, paymentId: int, amount: nat): int {
    (if pick(CASH, Some(paymentId)) then amount else 0)
    - (if pick(IncomeAccount(kind), Some(paymentId)) then amount else 0)
  }

  /** Effect of the payments numbered 1 to n that are in the ledger. */
  ghost function PaymentsEffect(d: P.Desk, entries: seq<Entry>, pick: Choice, n: nat): int
    requires n <= |d.payments|
  {
    if n == 0 then 0
    else
      PaymentsEffect(d, entries, pick, n - 1)
      + if HasEntry(entries, PAYMENTS, n) then Effect(pick, d.payments[n - 1].kind, n, d.payments[n - 1].amount) else 0
  }

  ghost function RefundEffect(d: P.Desk, pick: Choice, k: nat): int
    requires k < |d.refunds|
  {
    var r := d.refunds[k];
    if 1 <= r.paymentId <= |d.payments| then Effect(pick, d.payments[r.paymentId - 1].kind, r.paymentId, r.amount) else 0
  }

  ghost function RefundsEffect(d: P.Desk, entries: seq<Entry>, pick: Choice, n: nat): int
    requires n <= |d.refunds|
  {
    if n == 0 then 0
    else RefundsEffect(d, entries, pick, n - 1) + if HasEntry(entries, REFUNDS, n) then RefundEffect(d, pick, n - 1) else 0
  }

  /** Ledger and desk agree on the chosen lines. */
  ghost predicate Agrees(s: System, pick: Choice) {
    SourcedNet(s.books.chart, s.books.entries, pick) ==
    PaymentsEffect(s.desk, s.books.entries, pick, |s.desk.payments|)
    - RefundsEffect(s.desk, s.books.entries, pick, |s.desk.refunds|)
  }

  // -------------------------------------------------------- growing the desk

  /** No entry names a payment or refund that does not exist yet. */
  lemma NoEntryYet(s: System, id: nat)
    requires Inv(s)
    ensures id > |s.desk.payments| ==> !HasEntry(s.books.entries, PAYMENTS, id)
    ensures id > |s.desk.refunds| ==> !HasEntry(s.books.entries, REFUNDS, id)
  {
    if i :| 0 <= i < |s.books.entries| && IsEntryFor(s.books.entries[i], PAYMENTS, id) {
      assert Explained(s.desk, s.books.entries[i]);
      var known: nat :| 1 <= known <= |s.desk.payments| && IsEntryFor(s.books.entries[i], PAYMENTS, known);
      DecimalTextInjective(id, known);
    }
    if i :| 0 <= i < |s.books.entries| && IsEntryFor(s.books.entries[i], REFUNDS, id) {
      assert Explained(s.desk, s.books.entries[i]);
      var known: nat :| 1 <= known <= |s.desk.refunds| && IsEntryFor(s.books.entries[i], REFUNDS, known);
      DecimalTextInjective(id, known);
    }
  }

  lemma {:induction false} PaymentsEffectGrows(s: System, d: P.Desk, pick: Choice, n: nat)
    requires Inv(s) && DeskExtends(d, s.desk) && n <= |d.payments|
    ensures PaymentsEffect(d, s.books.entries, pick, n) ==
            PaymentsEffect(s.desk, s.books.entries, pick, Min(n, |s.desk.payments|))
  {
    hide Inv;
    if n > 0 {
      PaymentsEffectGrows(s, d, pick, n - 1);
      NoEntryYet(s, n);
    }
  }

  lemma {:induction false} RefundsEffectGrows(s: System, d: P.Desk, pick: Choice, n: nat)
    requires Inv(s) && DeskExtends(d, s.desk) && n <= |d.refunds|
    ensures RefundsEffect(d, s.books.entries, pick, n) ==
            RefundsEffect(s.desk, s.books.entries, pick, Min(n, |s.desk.refunds|))
  {
    if n > 0 {
      RefundsEffectGrows(s, d, pick, n - 1);
      NoEntryYet(s, n);
      if n <= |s.desk.refunds| { assert RefundSound(s.desk, n - 1); }
    }
  }

  lemma DeskStepAgrees(s: System, after: System, pick: Choice)
    requires Inv(s) && Agrees(s, pick)
    requires after.books == s.books && DeskExtends(after.desk, s.desk)
    ensures Agrees(after, pick)
  {
    PaymentsEffectGrows(s, after.desk, pick, |after.desk.payments|);
    RefundsEffectGrows(s, after.desk, pick, |after.desk.refunds|);
  }

  // ------------------------------------------------------- growing the books

  /** Selectors that agree on every line give the same net. */
  lemma {:induction false} NetSame(lines: seq<Line>, p: Selector, q: Selector)
    requires forall i :: 0 <= i < |lines| ==> p(lines[i].account, lines[i].tags) == q(lines[i].account, lines[i].tags)
    ensures Net(lines, p) == Net(lines, q)
  {
    if lines != [] { NetSame(lines[..|lines| - 1], p, q); }
  }

  /** Status changes and new accounts leave the net of the old entries alone. */
  lemma {:induction false} SourcedNetKept(before: Books, after: Books, pick: Choice, n: nat)
    requires L.Sound(before) && H.Extends(after, before) && n <= |before.entries|
    ensures SourcedNet(after.chart, after.entries[..n], pick) == SourcedNet(before.chart, before.entries[..n], pick)
  {
    if n > 0 {
      var e := before.entries[n - 1];
      SourcedNetKept(before, after, pick, n - 1);
      assert before.entries[..n][..n - 1] == before.entries[..n - 1];
      assert after.entries[..n][..n - 1] == after.entries[..n - 1];
      assert H.SameButStatus(after.entries[n - 1], e);
      assert L.EntrySound(before, e);
      NetSame(e.lines, Coded(after.chart, pick), Coded(before.chart, pick));
    }
  }

  lemma SourcedNetGrows(before: Books, after: Books, pick: Choice)
    requires L.Sound(before) && H.Extends(after, before) && |after.entries| <= |before.entries| + 1
    ensures SourcedNet(after.chart, after.entries, pick) ==
            SourcedNet(before.chart, before.entries, pick)
            + if |after.entries| > |before.entries| && IsPaymentSource(after.entries[|before.entries|].sourceModule)
              then Net(after.entries[|before.entries|].lines, Coded(after.chart, pick)) else 0
  {
    SourcedNetKept(before, after, pick, |before.entries|);
    assert before.entries[..|before.entries|] == before.entries;
    if |after.entries| == |before.entries| {
      assert after.entries[..|before.entries|] == after.entries;
    }
  }

  lemma HasEntryKept(before: Books, after: Books, sourceModule: string, id: nat)
    requires H.Extends(after, before) && |after.entries| <= |before.entries| + 1
    ensures HasEntry(after.entries, sourceModule, id) <==>
            (HasEntry(before.entries, sourceModule, id)
             || (|after.entries| > |before.entries| && IsEntryFor(after.entries[|before.entries|], sourceModule, id)))
  {
    forall i | 0 <= i < |before.entries|
      ensures IsEntryFor(after.entries[i], sourceModule, id) == IsEntryFor(before.entries[i], sourceModule, id)
    {
      assert H.SameButStatus(after.entries[i], before.entries[i]);
    }
  }

  /** The effect of the desk over new books moves by the one subject that entered. */
  lemma {:induction false} PaymentsEffectMoves(d: P.Desk, before: Books, after: Books, pick: Choice, n: nat, id: nat)
    requires H.Extends(after, before) && n <= |d.payments|
    requires forall k: nat :: 1 <= k <= |d.payments| ==>
               HasEntry(after.entries, PAYMENTS, k) == (HasEntry(before.entries, PAYMENTS, k) || k == id)
    requires 1 <= id <= |d.payments| ==> !HasEntry(before.entries, PAYMENTS, id)
    ensures PaymentsEffect(d, after.entries, pick, n) ==
            PaymentsEffect(d, before.entries, pick, n)
            + if 1 <= id <= n then Effect(pick, d.payments[id - 1].kind, id, d.payments[id - 1].amount) else 0
  {
    if n > 0 { PaymentsEffectMoves(d, before, after, pick, n - 1, id); }
  }

  lemma {:induction false} RefundsEffectMoves(d: P.Desk, before: Books, after: Books, pick: Choice, n: nat, id: nat)
    requires H.Extends(after, before) && n <= |d.refunds|
    requires forall k: nat :: 1 <= k <= |d.refunds| ==>
               HasEntry(after.entries, REFUNDS, k) == (HasEntry(before.entries, REFUNDS, k) || k == id)
    requires 1 <= id <= |d.refunds| ==> !HasEntry(before.entries, REFUNDS, id)
    ensures RefundsEffect(d, after.entries, pick, n) ==
            RefundsEffect(d, before.entries, pick, n) + if 1 <= id <= n then RefundEffect(d, pick, id - 1) else 0
  {
    if n > 0 { RefundsEffectMoves(d, before, after, pick, n - 1, id); }
  }

  /** Ledger operations outside the two families change neither side. */
  lemma ForeignBooksAgree(s: System, books: Books, pick: Choice)
    requires Inv(s) && Agrees(s, pick)
    requires H.Extends(books, s.books) && |books.entries| <= |s.books.entries| + 1
    requires |books.entries| > |s.books.entries| ==> !IsPaymentSource(books.entries[|s.books.entries|].sourceModule)
    ensures Agrees(s.(books := books), pick)
  {
    SourcedNetGrows(s.books, books, pick);
    forall k: nat
      ensures HasEntry(books.entries, PAYMENTS, k) == HasEntry(s.books.entries, PAYMENTS, k)
      ensures HasEntry(books.entries, REFUNDS, k) == HasEntry(s.books.entries, REFUNDS, k)
    {
      HasEntryKept(s.books, books, PAYMENTS, k);
      HasEntryKept(s.books, books, REFUNDS, k);
    }
    PaymentsEffectMoves(s.desk, s.books, books, pick, |s.desk.payments|, 0);
    RefundsEffectMoves(s.desk, s.books, books, pick, |s.desk.refunds|, 0);
  }

  // ------------------------------------------------------ entering a payment

  /** The stored lines of an entry of two lines. */
  lemma TwoLineNet(lines: seq<Line>, pick: Selector)
    requires |lines| == 2
    ensures Net(lines, pick) == NetOfLine(lines[0], pick) + NetOfLine(lines[1], pick)
  {
    assert lines[..1][..0] == [];
    assert Net(lines[..1], pick) == NetOfLine(lines[0], pick);
  }

  lemma PaymentEntryEffect(chart: seq<Account>, p: P.Payment, id: nat, number: string, pick: Choice)
    requires IsDateText(PaymentEntry(p, id).entryDate)
    requires forall i :: 0 <= i < 2 ==> Known(chart, PaymentEntry(p, id).lines[i].accountCode)
    requires Acceptable(PaymentEntry(p, id).lines)
    ensures Net(NewEntry(chart, PaymentEntry(p, id), number).lines, Coded(chart, pick)) == Effect(pick, p.kind, id, p.amount)
  {
    var input := PaymentEntry(p, id);
    var lines := NewEntry(chart, input, number).lines;
    assert lines[0] == Stored(chart, input.lines[0]) && lines[1] == Stored(chart, input.lines[1]);
    AmountRoundTrip(p.amount);
    AmountRoundTrip(0);
    TwoLineNet(lines, Coded(chart, pick));
  }

  lemma RefundEntryEffect(chart: seq<Account>, r: P.Refund, refundId: nat, p: P.Payment, number: string, pick: Choice)
    requires IsDateText(RefundEntry(r, refundId, p).entryDate)
    requires forall i :: 0 <= i < 2 ==> Known(chart, RefundEntry(r, refundId, p).lines[i].accountCode)
    requires Acceptable(RefundEntry(r, refundId, p).lines)
    ensures Net(NewEntry(chart, RefundEntry(r, refundId, p), number).lines, Coded(chart, pick)) ==
            -Effect(pick, p.kind, r.paymentId, r.amount)
  {
    var input := RefundEntry(r, refundId, p);
    var lines := NewEntry(chart, input, number).lines;
    assert lines[0] == Stored(chart, input.lines[0]) && lines[1] == Stored(chart, input.lines[1]);
    AmountRoundTrip(r.amount);
    AmountRoundTrip(0);
    TwoLineNet(lines, Coded(chart, pick));
  }

  /** Posting the event of a payment or refund enters exactly its effect, once. */
  lemma EnterAgrees(s: System, task: nat, number: string, pick: Choice)
    requires Inv(s) && Agrees(s, pick) && Enabled(s, Enter(task, number))
    ensures Agrees(Apply(s, Enter(task, number)), pick)
  {
    var t := s.tasks[task];
    var input := t.phase.input;
    var after := Post(s.books, input, number).books;
    assert TaskSound(s, t);
    H.ApplyExtends(s.books, L.PostStep(input, number));
    ReceiptPoints(s.books, input, number);
    if after == s.books || !IsPaymentEvent(t.event.key.eventType) {
      ForeignBooksAgree(s, after, pick);
    } else {
      SubjectEnters(s, task, number, pick);
    }
  }

  lemma SubjectEnters(s: System, task: nat, number: string, pick: Choice)
    requires Inv(s) && Agrees(s, pick) && Enabled(s, Enter(task, number))
    ensures var t := s.tasks[task]; var after := Post(s.books, t.phase.input, number).books;
            IsPaymentEvent(t.event.key.eventType) && after != s.books ==> Agrees(s.(books := after), pick)
  {
    hide Post, Agrees, PaymentEntry, RefundEntry;
    var t := s.tasks[task];
    assert TaskSound(s, t);
    hide Inv;
    if IsPaymentEvent(t.event.key.eventType) && Post(s.books, t.phase.input, number).books != s.books {
      var id: nat := t.event.subject;
      if t.event.key.eventType == P.APPROVED_EVENT {
        PaymentEnters(s, id, number, pick);
      } else {
        RefundEnters(s, id, number, pick);
      }
    }
  }

  lemma PaymentEnters(s: System, id: nat, number: string, pick: Choice)
    requires Inv(s) && Agrees(s, pick) && 1 <= id <= |s.desk.payments|
    ensures Agrees(s.(books := Post(s.books, PaymentEntry(s.desk.payments[id - 1], id), number).books), pick)
  {
    hide Post, Inv, Agrees, PaymentEntry, HasSource;
    var p := s.desk.payments[id - 1];
    var input := PaymentEntry(p, id);
    if Post(s.books, input, number).books == s.books { return; }
    EntrySources(p, id, P.Refund(0, 0, "", false, None), 0);
    H.ApplyExtends(s.books, L.PostStep(input, number));
    AddedEntry(s.books, input, number);
    FreshSubject(s.books, input, number, PAYMENTS, id);
    PaymentEntryEffect(s.books.chart, p, id, number, pick);
    AgreesAfterPayment(s, Post(s.books, input, number).books, pick, id);
  }

  lemma RefundEnters(s: System, id: nat, number: string, pick: Choice)
    requires Inv(s) && Agrees(s, pick) && 1 <= id <= |s.desk.refunds| && 1 <= s.desk.refunds[id - 1].paymentId <= |s.desk.payments|
    ensures var r := s.desk.refunds[id - 1];
            Agrees(s.(books := Post(s.books, RefundEntry(r, id, s.desk.payments[r.paymentId - 1]), number).books), pick)
  {
    hide Post, Inv, Agrees, RefundEntry, HasSource;
    var r := s.desk.refunds[id - 1];
    var p := s.desk.payments[r.paymentId - 1];
    var input := RefundEntry(r, id, p);
    if Post(s.books, input, number).books == s.books { return; }
    EntrySources(p, 0, r, id);
    H.ApplyExtends(s.books, L.PostStep(input, number));
    AddedEntry(s.books, input, number);
    FreshSubject(s.books, input, number, REFUNDS, id);
    RefundEntryEffect(s.books.chart, r, id, p, number, pick);
    AgreesAfterRefund(s, Post(s.books, input, number).books, pick, id);
  }

  lemma EntrySources(p: P.Payment, id: nat, r: P.Refund, refundId: nat)
    ensures var a := PaymentEntry(p, id);
            a.sourceModule == Some(PAYMENTS) && a.sourceId == Some(DecimalText(id)) && HasSource(a) && |a.lines| == 2
    ensures var b := RefundEntry(r, refundId, p);
            b.sourceModule == Some(REFUNDS) && b.sourceId == Some(DecimalText(refundId)) && HasSource(b) && |b.lines| == 2
  {
  }

  lemma AddedEntry(b: Books, input: EntryInput, number: string)
    requires Post(b, input, number).books != b
    ensures IsDateText(input.entryDate) && Acceptable(input.lines)
    ensures forall i :: 0 <= i < |input.lines| ==> Known(b.chart, input.lines[i].accountCode)
    ensures Post(b, input, number).books == b.(entries := b.entries + [NewEntry(b.chart, input, number)])
  {
  }

  lemma AgreesAfterPayment(s: System, after: Books, pick: Choice, id: nat)
    requires Inv(s) && Agrees(s, pick) && 1 <= id <= |s.desk.payments|
    requires H.Extends(after, s.books) && |after.entries| == |s.books.entries| + 1
    requires var e := after.entries[|s.books.entries|];
             && IsEntryFor(e, PAYMENTS, id)
             && Net(e.lines, Coded(after.chart, pick)) == Effect(pick, s.desk.payments[id - 1].kind, id, s.desk.payments[id - 1].amount)
    requires !HasEntry(s.books.entries, PAYMENTS, id)
    ensures Agrees(s.(books := after), pick)
  {
    SourcedNetGrows(s.books, after, pick);
    OnlySubjectEnters(s.books, after, PAYMENTS, id);
    PaymentsEffectMoves(s.desk, s.books, after, pick, |s.desk.payments|, id);
    RefundsEffectMoves(s.desk, s.books, after, pick, |s.desk.refunds|, 0);
  }

  lemma AgreesAfterRefund(s: System, after: Books, pick: Choice, id: nat)
    requires Inv(s) && Agrees(s, pick) && 1 <= id <= |s.desk.refunds|
    requires H.Extends(after, s.books) && |after.entries| == |s.books.entries| + 1
    requires var e := after.entries[|s.books.entries|];
             && IsEntryFor(e, REFUNDS, id)
             && Net(e.lines, Coded(after.chart, pick)) == -RefundEffect(s.desk, pick, id - 1)
    requires !HasEntry(s.books.entries, REFUNDS, id)
    ensures Agrees(s.(books := after), pick)
  {
    SourcedNetGrows(s.books, after, pick);
    OnlySubjectEnters(s.books, after, REFUNDS, id);
    PaymentsEffectMoves(s.desk, s.books, after, pick, |s.desk.payments|, 0);
    RefundsEffectMoves(s.desk, s.books, after, pick, |s.desk.refunds|, id);
  }

  /** A posting that added an entry found none with its source. */
  lemma FreshSubject(b: Books, input: EntryInput, number: string, family: string, id: nat)
    requires input.sourceModule == Some(family) && input.sourceId == Some(DecimalText(id)) && HasSource(input)
    requires Post(b, input, number).books != b
    ensures !HasEntry(b.entries, family, id)
  {
  }

  lemma OnlySubjectEnters(before: Books, after: Books, family: string, id: nat)
    requires H.Extends(after, before) && |after.entries| == |before.entries| + 1
    requires IsEntryFor(after.entries[|before.entries|], family, id) && (family == PAYMENTS || family == REFUNDS)
    ensures forall k: nat ::
              HasEntry(after.entries, PAYMENTS, k) == (HasEntry(before.entries, PAYMENTS, k) || (family == PAYMENTS && k == id))
    ensures forall k: nat ::
              HasEntry(after.entries, REFUNDS, k) == (HasEntry(before.entries, REFUNDS, k) || (family == REFUNDS && k == id))
  {
    forall k: nat
      ensures HasEntry(after.entries, PAYMENTS, k) == (HasEntry(before.entries, PAYMENTS, k) || (family == PAYMENTS && k == id))
      ensures HasEntry(after.entries, REFUNDS, k) == (HasEntry(before.entries, REFUNDS, k) || (family == REFUNDS && k == id))
    {
      HasEntryKept(before, after, PAYMENTS, k);
      HasEntryKept(before, after, REFUNDS, k);
      if IsEntryFor(after.entries[|before.entries|], family, k) { DecimalTextInjective(k, id); }
      assert PAYMENTS[7] == 's' && REFUNDS[7] == '_';
    }
  }

  // ------------------------------------------------------------ every history

  lemma EnqueueKeepsKeys(rows: seq<O.OutboxRow>)
    ensures forall key: O.EventKey, subject: int ::
              var after := O.Enqueue(rows, key, subject);
              |rows| <= |after| && forall k :: 0 <= k < |rows| ==> after[k].key == rows[k].key
  {
  }

  /** Whatever the step, amounts, types and keys of the desk stay. */
  lemma StepExtendsDesk(s: System, step: Step)
    ensures DeskExtends(Apply(s, step).desk, s.desk)
    ensures step.Enter? || step.LedgerStep? || Apply(s, step).books == s.books
    ensures step.Enter? ==> Apply(s, step).desk == s.desk
  {
    EnqueueKeepsKeys(s.desk.outbox);
    hide Post, LoadEvent, O.Eligible, O.Enqueue;
  }

  lemma ApplyAgrees(s: System, step: Step, pick: Choice)
    requires Inv(s) && Agrees(s, pick)
    ensures Agrees(Apply(s, step), pick)
  {
    hide Inv, Agrees, Post;
    if Enabled(s, step) {
      match step {
        case Enter(task, number) => EnterAgrees(s, task, number, pick);
        case LedgerStep(inner) => LedgerStepAgrees(s, inner, pick);
        case _ =>
          StepExtendsDesk(s, step);
          DeskStepAgrees(s, Apply(s, step), pick);
      }
    }
  }

  lemma LedgerStepAgrees(s: System, inner: L.Step, pick: Choice)
    requires Inv(s) && Agrees(s, pick) && Enabled(s, LedgerStep(inner))
    ensures Agrees(s.(books := L.Apply(s.books, inner)), pick)
  {
    hide Inv, Agrees, L.Apply, H.Extends;
    H.ApplyExtends(s.books, inner);
    AddsForeign(s.books, inner);
    ForeignBooksAgree(s, L.Apply(s.books, inner), pick);
  }

  /** A ledger operation adds at most one entry, of its own source or a reversal. */
  lemma AddsForeign(b: Books, inner: L.Step)
    requires inner.PostStep? ==> !IsPaymentSource(inner.entry.sourceModule)
    ensures var after := L.Apply(b, inner);
            |after.entries| <= |b.entries| + 1
            && (|after.entries| > |b.entries| ==> !IsPaymentSource(after.entries[|b.entries|].sourceModule))
  {
    assert PAYMENTS[0] == 'p' && REFUNDS[0] == 'p' && REVERSAL[0] == 'j';
  }

  /**
   * In every run of requests, workers, retries, crashes, closings and reversals
   * the ledger agrees with the desk, for every choice of accounts and payments.
   */
  lemma {:induction false} RunAgrees(s: System, steps: seq<Step>, pick: Choice)
    requires Initial(s)
    ensures Inv(Run(s, steps)) && Agrees(Run(s, steps), pick)
  {
    if steps == [] {
      InitialInv(s);
    } else {
      var before := Run(s, steps[..|steps| - 1]);
      RunAgrees(s, steps[..|steps| - 1], pick);
      hide Inv, Agrees;
      ApplyInv(before, steps[|steps| - 1]);
      ApplyAgrees(before, steps[|steps| - 1], pick);
    }
  }
}
