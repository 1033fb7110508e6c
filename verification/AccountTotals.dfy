/**
 * What each account carries once every payment and refund event is posted: the
 * chart codes and the payment types they stand for, written out
 * (accounting-payment-posting.service.ts, resolveIncomeAccount).
 */
module AccountTotals {
  import opened Prelude
  import O = Outbox
  import P = Payments
  import opened Posting
  import opened Journal
  import opened PaymentSystem
  import opened SystemInvariant
  import opened SystemSteps
  import opened Reconciliation
  import opened EndToEnd

  /** Any choice of payment types. */
  type Kinds = P.PaymentType -> bool

  /** Amounts of the enqueued payments of some types, numbered 1 to n. */
  ghost function PaymentsOf(d: P.Desk, kinds: Kinds, n: nat): nat
    requires n <= |d.payments|
  {
    if n == 0 then 0
    else
      PaymentsOf(d, kinds, n - 1)
      + if Enqueued(d, n) && kinds(d.payments[n - 1].kind) then d.payments[n - 1].amount else 0
  }

  /** The refund is of a payment of these types. */
  predicate RefundOf(d: P.Desk, kinds: Kinds, r: P.Refund) {
    1 <= r.paymentId <= |d.payments| && kinds(d.payments[r.paymentId - 1].kind)
  }

  /** Amounts of the enqueued refunds of payments of some types, numbered 1 to n. */
  ghost function RefundsOf(d: P.Desk, kinds: Kinds, n: nat): nat
    requires n <= |d.refunds|
  {
    if n == 0 then 0
    else
      RefundsOf(d, kinds, n - 1)
      + if RefundEnqueued(d, n) && RefundOf(d, kinds, d.refunds[n - 1]) then d.refunds[n - 1].amount else 0
  }

  function OnCode(account: string): Choice {
    (code, payment) => code == account
  }

  /** Net credit of an account over the entries of the two families. */
  function Credited(s: System, account: string): int {
    -SourcedNet(s.books.chart, s.books.entries, OnCode(account))
  }

  /** Payments of exactly these types touch the account. */
  ghost predicate Collects(account: string, kinds: Kinds) {
    forall kind :: kinds(kind) <==> account == CASH || IncomeAccount(kind) == account
  }

  lemma EffectOn(account: string, kinds: Kinds, kind: P.PaymentType, id: int, amount: nat)
    requires Collects(account, kinds)
    ensures Effect(OnCode(account), kind, id, amount) == OnSide(account, if kinds(kind) then amount else 0)
  {
    hide IncomeAccount;
    assert CASH[0] == '1' && IncomeAccount(kind) != CASH;
  }

  lemma {:induction false} CreditOfPayments(s: System, account: string, kinds: Kinds, n: nat)
    requires Inv(s) && AllPosted(s) && n <= |s.desk.payments| && Collects(account, kinds)
    ensures PaymentsEffect(s.desk, s.books.entries, OnCode(account), n) == OnSide(account, PaymentsOf(s.desk, kinds, n))
  {
    hide Inv, AllPosted, Enqueued, HasEntry, Collects, Effect, OnCode;
    if n > 0 {
      CreditOfPayments(s, account, kinds, n - 1);
      EntriesMatchDesk(s);
      EffectOn(account, kinds, s.desk.payments[n - 1].kind, n, s.desk.payments[n - 1].amount);
    }
  }

  lemma {:induction false} CreditOfRefunds(s: System, account: string, kinds: Kinds, n: nat)
    requires Inv(s) && AllPosted(s) && n <= |s.desk.refunds| && Collects(account, kinds)
    ensures RefundsEffect(s.desk, s.books.entries, OnCode(account), n) == OnSide(account, RefundsOf(s.desk, kinds, n))
  {
    hide Inv, AllPosted, RefundEnqueued, HasEntry, Collects, Effect, OnCode;
    if n > 0 {
      CreditOfRefunds(s, account, kinds, n - 1);
      EntriesMatchDesk(s);
      PaymentOfRefund(s, n - 1);
      var r := s.desk.refunds[n - 1];
      EffectOn(account, kinds, s.desk.payments[r.paymentId - 1].kind, r.paymentId, r.amount);
    }
  }

  lemma PaymentOfRefund(s: System, k: nat)
    requires Inv(s) && k < |s.desk.refunds|
    ensures 1 <= s.desk.refunds[k].paymentId <= |s.desk.payments|
  {
    assert RefundSound(s.desk, k);
  }

  /** What the enqueued payments of some types leave after their enqueued refunds. */
  ghost function Left(d: P.Desk, kinds: Kinds): int {
    PaymentsOf(d, kinds, |d.payments|) - RefundsOf(d, kinds, |d.refunds|)
  }

  lemma CreditReconciles(start: System, steps: seq<Step>, account: string, kinds: Kinds)
    requires Initial(start) && AllPosted(Run(start, steps)) && Collects(account, kinds)
    ensures var s := Run(start, steps);
            Credited(s, account) == -OnSide(account, Left(s.desk, kinds))
  {
    var s := Run(start, steps);
    RunAgrees(start, steps, OnCode(account));
    CreditOfPayments(s, account, kinds, |s.desk.payments|);
    CreditOfRefunds(s, account, kinds, |s.desk.refunds|);
  }

  lemma CodesApart()
    ensures Collects("2200", (kind: P.PaymentType) => kind == P.DEPOSIT)
    ensures Collects("4000", (kind: P.PaymentType) => kind == P.RENT)
    ensures Collects("4100", (kind: P.PaymentType) => kind == P.LATE_FEE)
    ensures Collects("4300", (kind: P.PaymentType) => kind != P.DEPOSIT && kind != P.RENT && kind != P.LATE_FEE)
    ensures Collects("1100", (kind: P.PaymentType) => true)
  {
    assert CASH[0] == '1';
    assert "2200"[0] == '2' && "4000"[0] == '4' && "4000"[1] == '0' && "4100"[1] == '1' && "4300"[1] == '3';
  }

  /**
   * In every run, once every event is posted: deposits are owed on 2200, rent is
   * earned on 4000, late fees on 4100 and everything else on 4300, and all of it
   * lies in cash on 1100.
   */
  lemma AccountsReconcile(start: System, steps: seq<Step>)
    requires Initial(start) && AllPosted(Run(start, steps))
    ensures var s := Run(start, steps);
            && Credited(s, "2200") == Left(s.desk, kind => kind == P.DEPOSIT)
            && Credited(s, "4000") == Left(s.desk, kind => kind == P.RENT)
            && Credited(s, "4100") == Left(s.desk, kind => kind == P.LATE_FEE)
            && Credited(s, "4300") == Left(s.desk, kind => kind != P.DEPOSIT && kind != P.RENT && kind != P.LATE_FEE)
            && Credited(s, "1100") == -Left(s.desk, kind => true)
  {
    CodesApart();
    CreditReconciles(start, steps, "2200", kind => kind == P.DEPOSIT);
    CreditReconciles(start, steps, "4000", kind => kind == P.RENT);
    CreditReconciles(start, steps, "4100", kind => kind == P.LATE_FEE);
    CreditReconciles(start, steps, "4300", kind => kind != P.DEPOSIT && kind != P.RENT && kind != P.LATE_FEE);
    CreditReconciles(start, steps, "1100", kind => true);
    assert CASH == "1100";
    assert "2200"[0] == '2' && "4000"[0] == '4' && "4100"[0] == '4' && "4300"[0] == '4';
  }
}
