/**
 * Partial payments of an expense (registerExpensePayment of expenses.service.ts)
 * next to its updates, which read the row in one statement and save it whole in
 * another.
 */
module ExpensePayments {
  import opened Prelude
  import opened Money

  datatype PaidStatus = ExpensePending | PartiallyPaid | Paid | Reimbursed

  /** Stored amounts are whole cents. */
  datatype Expense = Expense(amount: nat, paid: nat, status: PaidStatus, paidDate: Option<string>)

  datatype ExpensePayment = ExpensePayment(expenseId: nat, amount: nat, date: string)

  datatype ExpenseError = NoSuchExpense | BackToPending | NotPositive | ExceedsBalance | TooSmall

  datatype Ledger = Ledger(expenses: seq<Expense>, payments: seq<ExpensePayment>)

  function Remaining(e: Expense): int {
    Max(0, e.amount - e.paid)
  }

  /** What refuses a payment; one that rounds to nothing is refused by the table. */
  function PaymentFault(l: Ledger, id: nat, amount: real): Option<ExpenseError> {
    if !(1 <= id <= |l.expenses|) then Some(NoSuchExpense)
    else if amount <= 0.0 then Some(NotPositive)
    else if amount * 100.0 > Remaining(l.expenses[id - 1]) as real then Some(ExceedsBalance)
    else if ToCents(amount) == 0 then Some(TooSmall)
    else None
  }

  /** The new paid amount, rounded after adding. */
  function NewPaid(e: Expense, amount: real): int {
    HalfUp(e.paid as real + amount * 100.0)
  }

  /** Rounding the sum is the same as adding the rounded payment that is stored. */
  lemma NewPaidAdds(e: Expense, amount: real)
    requires amount > 0.0
    ensures NewPaid(e, amount) == e.paid + ToCents(amount)
    ensures ToCents(amount) >= 0
    ensures amount * 100.0 <= Remaining(e) as real ==> e.paid + ToCents(amount) <= Max(e.paid, e.amount)
  {
    ShiftIff(amount * 100.0, -(e.paid as int));
    assert amount * 100.0 - (-(e.paid as int)) as real == e.paid as real + amount * 100.0;
    HalfUpMonotone(0.0, amount * 100.0);
    HalfUpExact(0);
    if amount * 100.0 <= Remaining(e) as real {
      HalfUpMonotone(amount * 100.0, Remaining(e) as real);
      HalfUpExact(Remaining(e));
    }
  }

  function Register(l: Ledger, id: nat, amount: real, date: string): (after: Ledger)
    ensures |after.expenses| == |l.expenses|
  {
    if PaymentFault(l, id, amount).Some? then l
    else
      var e := l.expenses[id - 1];
      NewPaidAdds(e, amount);
      var paid := e.paid + ToCents(amount);
      Ledger(l.expenses[id - 1 := e.(paid := paid,
                                     status := if paid >= e.amount then Paid else PartiallyPaid,
                                     paidDate := if paid >= e.amount then Some(date) else e.paidDate)],
             l.payments + [ExpensePayment(id, ToCents(amount), date)])
  }

  class ExpensesService {
    var expenses: seq<Expense>
    var payments: seq<ExpensePayment>

    constructor (expenses: seq<Expense>)
      ensures this.expenses == expenses && payments == []
    {
      this.expenses := expenses;
      payments := [];
    }

    function Tables(): Ledger
      reads this
    {
      Ledger(expenses, payments)
    }

    /** One transaction on the locked expense row. */
    method RegisterExpensePayment(id: nat, amount: real, date: string) returns (r: Result<nat, ExpenseError>)
      modifies this
      ensures Tables() == Register(old(Tables()), id, amount, date)
      ensures r == match PaymentFault(old(Tables()), id, amount)
                   case Some(fault) => Err(fault)
                   case None => Ok(|payments|)
      ensures r.Err? ==> Tables() == old(Tables())
      ensures r.Ok? ==>
                && expenses[id - 1].paid <= expenses[id - 1].amount
                && (expenses[id - 1].status == Paid <==> expenses[id - 1].paid == expenses[id - 1].amount)
    {
      if id < 1 || id > |expenses| {
        return Err(NoSuchExpense);
      }
      var current := expenses[id - 1];
      var remaining := Remaining(current);
      if amount <= 0.0 {
        return Err(NotPositive);
      }
      if amount * 100.0 > remaining as real {
        return Err(ExceedsBalance);
      }
      var newPaidAmount := NewPaid(current, amount);
      NewPaidAdds(current, amount);
      if ToCents(amount) == 0 {
        return Err(TooSmall);
      }
      payments := payments + [ExpensePayment(id, ToCents(amount), date)];
      var full := newPaidAmount >= current.amount;
      expenses := expenses[id - 1 := current.(paid := newPaidAmount,
                                              status := if full then Paid else PartiallyPaid,
                                              paidDate := if full then Some(date) else current.paidDate)];
      return Ok(|payments|);
    }

    /** An update nothing interrupts: it keeps what was paid. */
    method UpdateExpense(id: nat, newAmount: Option<nat>, newStatus: Option<PaidStatus>) returns (r: Result<Expense, ExpenseError>)
      modifies this`expenses
      ensures r.Ok? <==> 1 <= id <= |old(expenses)| && ChangeAccepted(old(expenses)[id - 1], newStatus)
      ensures r.Err? ==> expenses == old(expenses)
      ensures r.Ok? ==>
                && expenses == old(expenses)[id - 1 := r.value]
                && r.value.paid == old(expenses)[id - 1].paid && r.value.paidDate == old(expenses)[id - 1].paidDate
                && (newAmount.Some? ==> r.value.amount == newAmount.value)
                && (newAmount.None? ==> r.value.amount == old(expenses)[id - 1].amount)
                && r.value.status == (if newStatus.Some? then newStatus.value else old(expenses)[id - 1].status)
      ensures r.Ok? ==>
                Run(State(old(Tables()), map[]), [ReadStep(0, id), SaveStep(0, newAmount, newStatus)]) == State(Tables(), map[])
    {
      if id < 1 || id > |expenses| {
        return Err(NoSuchExpense);
      }
      var expense := expenses[id - 1];
      if expense.status != ExpensePending && newStatus == Some(ExpensePending) {
        return Err(BackToPending);
      }
      RunTwo(State(Tables(), map[]), ReadStep(0, id), SaveStep(0, newAmount, newStatus));
      var updated := Saved(expense, newAmount, newStatus);
      expenses := expenses[id - 1 := updated];
      return Ok(updated);
    }
  }

  // ------------------------------------------------------------ over all runs

  /** The row an update has read and not yet saved. */
  datatype Read = Read(id: nat, row: Expense)

  datatype State = State(ledger: Ledger, drafts: map<nat, Read>)

  datatype Step =
    | PayStep(id: nat, amount: real, date: string)
    | ReadStep(request: nat, id: nat)
    | SaveStep(request: nat, newAmount: Option<nat>, newStatus: Option<PaidStatus>)

  /** An expense that is not pending any more is not made pending again. */
  predicate ChangeAccepted(row: Expense, newStatus: Option<PaidStatus>) {
    row.status != ExpensePending ==> newStatus != Some(ExpensePending)
  }

  /** What an update writes: the row it read, with the changes it was asked for. */
  function Saved(row: Expense, newAmount: Option<nat>, newStatus: Option<PaidStatus>): Expense {
    row.(amount := if newAmount.Some? then newAmount.value else row.amount,
         status := if newStatus.Some? then newStatus.value else row.status)
  }

  predicate Enabled(s: State, step: Step) {
    match step
    case PayStep(_, _, _) => true
    case ReadStep(request, id) => request !in s.drafts && 1 <= id <= |s.ledger.expenses|
    case SaveStep(request, _, newStatus) =>
      request in s.drafts && 1 <= s.drafts[request].id <= |s.ledger.expenses| && ChangeAccepted(s.drafts[request].row, newStatus)
  }

  function Apply(s: State, step: Step): (after: State)
    ensures |after.ledger.expenses| == |s.ledger.expenses|
  {
    if !Enabled(s, step) then s else
    match step
    case PayStep(id, amount, date) => s.(ledger := Register(s.ledger, id, amount, date))
    case ReadStep(request, id) => s.(drafts := s.drafts[request := Read(id, s.ledger.expenses[id - 1])])
    case SaveStep(request, newAmount, newStatus) =>
      var read := s.drafts[request];
      State(s.ledger.(expenses := s.ledger.expenses[read.id - 1 := Saved(read.row, newAmount, newStatus)]), s.drafts - {request})
  }

  function Run(s: State, steps: seq<Step>): (after: State)
    ensures |after.ledger.expenses| == |s.ledger.expenses|
  {
    if steps == [] then s else Apply(Run(s, steps[..|steps| - 1]), steps[|steps| - 1])
  }

  function PaidTotal(payments: seq<ExpensePayment>, id: nat): nat {
    if payments == [] then 0
    else
      var last := payments[|payments| - 1];
      PaidTotal(payments[..|payments| - 1], id) + if last.expenseId == id then last.amount else 0
  }

  predicate Saves(s: State, step: Step, id: nat) {
    step.SaveStep? && Enabled(s, step) && s.drafts[step.request].id == id
  }

  predicate Pays(s: State, step: Step, id: nat) {
    step.PayStep? && step.id == id && PaymentFault(s.ledger, id, step.amount).None?
  }

  /** Paid as the save read it, less paid as it finds it. */
  function Overwritten(s: State, step: Step, id: nat): int
    requires 1 <= id <= |s.ledger.expenses|
  {
    if Saves(s, step, id) then s.drafts[step.request].row.paid - s.ledger.expenses[id - 1].paid else 0
  }

  function TotalOverwritten(s: State, steps: seq<Step>, id: nat): int
    requires 1 <= id <= |s.ledger.expenses|
  {
    if steps == [] then 0
    else TotalOverwritten(s, steps[..|steps| - 1], id) + Overwritten(Run(s, steps[..|steps| - 1]), steps[|steps| - 1], id)
  }

  lemma ApplyConserves(s: State, step: Step, id: nat)
    requires 1 <= id <= |s.ledger.expenses|
    ensures var l, after := s.ledger, Apply(s, step).ledger;
            && after.expenses[id - 1].paid - PaidTotal(after.payments, id)
               == l.expenses[id - 1].paid - PaidTotal(l.payments, id) + Overwritten(s, step, id)
            && (Pays(s, step, id) ==>
                  (after.expenses[id - 1].status == Paid <==> after.expenses[id - 1].paid == after.expenses[id - 1].amount))
  {
    if step.PayStep? && PaymentFault(s.ledger, step.id, step.amount).None? {
      NewPaidAdds(s.ledger.expenses[step.id - 1], step.amount);
      assert Apply(s, step).ledger.payments[..|s.ledger.payments|] == s.ledger.payments;
    }
  }

  /**
   * In every run the paid amount is the initial one plus all accepted payments
   * plus what saves wrote over: it is the sum of the payments exactly when that
   * is nothing.
   */
  lemma {:induction false} PaidIsSumOfPayments(s: State, steps: seq<Step>, id: nat)
    requires 1 <= id <= |s.ledger.expenses| && s.ledger.payments == []
    ensures var after := Run(s, steps).ledger; var sum := s.ledger.expenses[id - 1].paid + PaidTotal(after.payments, id);
            && after.expenses[id - 1].paid == sum + TotalOverwritten(s, steps, id)
            && (after.expenses[id - 1].paid == sum <==> TotalOverwritten(s, steps, id) == 0)
  {
    if steps != [] {
      PaidIsSumOfPayments(s, steps[..|steps| - 1], id);
      ApplyConserves(Run(s, steps[..|steps| - 1]), steps[|steps| - 1], id);
    }
  }

  /** Neither an accepted payment nor a save of the expense, nor the save of this request. */
  predicate Quiet(s: State, step: Step, id: nat, request: nat) {
    !Pays(s, step, id) && !Saves(s, step, id) && !(step.SaveStep? && step.request == request)
  }

  predicate AllQuiet(s: State, steps: seq<Step>, id: nat, request: nat) {
    if steps == [] then true
    else AllQuiet(s, steps[..|steps| - 1], id, request) && Quiet(Run(s, steps[..|steps| - 1]), steps[|steps| - 1], id, request)
  }

  /** An update with nothing of its expense between read and save writes nothing over. */
  lemma {:induction false} QuietSaveKeepsPaid(s: State, request: nat, id: nat, steps: seq<Step>, save: Step)
    requires Enabled(s, ReadStep(request, id)) && AllQuiet(Apply(s, ReadStep(request, id)), steps, id, request)
    requires save.SaveStep? && save.request == request
    ensures Overwritten(Run(Apply(s, ReadStep(request, id)), steps), save, id) == 0
    ensures var after := Run(Apply(s, ReadStep(request, id)), steps);
            && request in after.drafts && after.drafts[request] == Read(id, s.ledger.expenses[id - 1])
            && after.ledger.expenses[id - 1] == s.ledger.expenses[id - 1]
  {
    if steps != [] {
      QuietSaveKeepsPaid(s, request, id, steps[..|steps| - 1], save);
      var before := Run(Apply(s, ReadStep(request, id)), steps[..|steps| - 1]);
      assert Quiet(before, steps[|steps| - 1], id, request);
    }
  }

  // ------------------------------------------------------ within the amount

  predicate Within(e: Expense) {
    e.paid <= e.amount
  }

  /**
   * A payment neither passes the amount nor is accepted beyond it; a save of the
   * expense decides anew, by the paid amount it writes.
   */
  lemma WithinMoves(s: State, step: Step, id: nat)
    requires 1 <= id <= |s.ledger.expenses|
    ensures Within(Apply(s, step).ledger.expenses[id - 1]) <==>
            if Saves(s, step, id) then Within(Saved(s.drafts[step.request].row, step.newAmount, step.newStatus))
            else Within(s.ledger.expenses[id - 1])
  {
    if step.PayStep? && PaymentFault(s.ledger, step.id, step.amount).None? {
      NewPaidAdds(s.ledger.expenses[step.id - 1], step.amount);
      PositiveRemaining(s.ledger.expenses[step.id - 1], step.amount);
    }
  }

  lemma PositiveRemaining(e: Expense, amount: real)
    requires 0.0 < amount && amount * 100.0 <= Remaining(e) as real
    ensures e.paid < e.amount
  {
  }

  /** The last save of the expense decides, or its beginning if there is none. */
  predicate WithinByHistory(s: State, steps: seq<Step>, id: nat)
    requires 1 <= id <= |s.ledger.expenses|
  {
    if steps == [] then Within(s.ledger.expenses[id - 1])
    else
      var before, last := Run(s, steps[..|steps| - 1]), steps[|steps| - 1];
      if Saves(before, last, id) then Within(Saved(before.drafts[last.request].row, last.newAmount, last.newStatus))
      else WithinByHistory(s, steps[..|steps| - 1], id)
  }

  /** In every run the paid amount is within the amount exactly when the last save left it so. */
  lemma {:induction false} WithinIff(s: State, steps: seq<Step>, id: nat)
    requires 1 <= id <= |s.ledger.expenses|
    ensures Within(Run(s, steps).ledger.expenses[id - 1]) <==> WithinByHistory(s, steps, id)
  {
    if steps != [] {
      WithinIff(s, steps[..|steps| - 1], id);
      WithinMoves(Run(s, steps[..|steps| - 1]), steps[|steps| - 1], id);
    }
  }

  // -------------------------------------------------------------- witnesses

  const HUNDRED := State(Ledger([Expense(10000, 0, ExpensePending, None)], []), map[])

  const DAY := "2024-01-15"

  lemma RunTwo(s: State, a: Step, b: Step)
    ensures Run(s, [a, b]) == Apply(Apply(s, a), b)
  {
    assert [a, b][..1] == [a] && [a][..0] == [];
    assert Run(s, [a]) == Apply(Run(s, []), a);
  }

  lemma RunFour(s: State, a: Step, b: Step, c: Step, d: Step)
    ensures Run(s, [a, b, c]) == Apply(Apply(Apply(s, a), b), c)
    ensures Run(s, [a, b, c, d]) == Apply(Apply(Apply(Apply(s, a), b), c), d)
  {
    assert [a, b, c, d][..3] == [a, b, c] && [a, b, c][..2] == [a, b];
    RunTwo(s, a, b);
  }

  /** 80.00 of 100.00 paid, then an update, undisturbed, to 50.00. */
  lemma AmendedBelowPaid()
    ensures var after := Run(HUNDRED, [PayStep(1, 80.0, DAY), ReadStep(0, 1), SaveStep(0, Some(5000), None)]).ledger;
            after.expenses[0].paid == 8000 && after.expenses[0].amount == 5000
  {
    RunFour(HUNDRED, PayStep(1, 80.0, DAY), ReadStep(0, 1), SaveStep(0, Some(5000), None), ReadStep(0, 1));
    HalfUpExact(8000);
    assert ToCents(80.0) == 8000;
  }

  /**
   * An update reads the row, 80.00 are paid, the update saves nothing paid, and
   * 100.00 more are accepted: paid says 100.00 where 180.00 were paid.
   */
  lemma PaymentIsOverwritten()
    ensures var after := Run(HUNDRED, [ReadStep(0, 1), PayStep(1, 80.0, DAY), SaveStep(0, None, None), PayStep(1, 100.0, DAY)]).ledger;
            && after.expenses[0].paid == 10000 == after.expenses[0].amount && after.expenses[0].status == Paid
            && PaidTotal(after.payments, 1) == 18000
  {
    var steps := [ReadStep(0, 1), PayStep(1, 80.0, DAY), SaveStep(0, None, None), PayStep(1, 100.0, DAY)];
    RunFour(HUNDRED, steps[0], steps[1], steps[2], steps[3]);
    HalfUpExact(8000);
    HalfUpExact(10000);
    assert ToCents(80.0) == 8000 && ToCents(100.0) == 10000;
    var payments := Run(HUNDRED, steps).ledger.payments;
    assert payments == [ExpensePayment(1, 8000, DAY), ExpensePayment(1, 10000, DAY)];
    assert payments[..1] == [payments[0]] && payments[..1][..0] == [];
    assert PaidTotal(payments[..1], 1) == 8000;
  }
}
