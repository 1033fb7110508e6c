/** Late fees on overdue rent (billing-cron.service.ts, late-fee.calculator.ts). */
module LateFees {
  import opened Prelude
  import opened Money
  import opened Calendar
  import P = Payments

  /**
   * A payment row; its identifier is its position plus one and dates are day
   * numbers. A deleted row keeps its place and counts for nothing.
   */
  datatype Charge = Charge(
    tenantId: int, contractId: Option<int>, propertyId: int, cents: nat, kind: P.PaymentType, status: P.PaymentStatus,
    paymentDate: int, dueDate: Option<int>, parent: Option<nat>, deleted: bool)

  // ------------------------------------------------------------- calculator

  /** The nearest cent to the exact percentage, half a cent going up; nothing of what is not positive. */
  method CalculateLateFee(principal: int, pct: real) returns (fee: int)
    ensures principal > 0 && pct > 0.0 ==>
              var exact := principal as real * pct / 100.0; exact - 0.5 < fee as real <= exact + 0.5
    ensures principal <= 0 || pct <= 0.0 ==> fee == 0
    ensures fee >= 0
  {
    if principal <= 0 || pct <= 0.0 {
      return 0;
    }
    fee := PercentOf(principal as real, pct);
    assert principal as real * pct > 0.0;
    HalfUpCharacterised(principal as real * pct / 100.0, fee);
  }

  function LateFee(principal: int, pct: real): int {
    if principal <= 0 || pct <= 0.0 then 0 else PercentOf(principal as real, pct)
  }

  /** The fee is the percentage to the nearest cent, half a cent going up. */
  lemma LateFeeIsHalfUp(principal: nat, pct: real, fee: int)
    requires principal > 0 && pct > 0.0
    ensures fee == LateFee(principal, pct) <==>
            var exact := principal as real * pct / 100.0; exact - 0.5 < fee as real <= exact + 0.5
  {
    var exact := principal as real * pct / 100.0;
    assert principal as real * pct >= 0.0;
    HalfUpCharacterised(exact, fee);
  }

  /** Whatever has these bounds is the fee. */
  lemma FeeIsLateFee(principal: int, pct: real, fee: int)
    requires principal > 0 && pct > 0.0 ==>
               var exact := principal as real * pct / 100.0; exact - 0.5 < fee as real <= exact + 0.5
    requires principal <= 0 || pct <= 0.0 ==> fee == 0
    ensures fee == LateFee(principal, pct)
  {
    if principal > 0 && pct > 0.0 { LateFeeIsHalfUp(principal, pct, fee); }
  }

  /**
   * Pushing the day of the month over its end still counts days exactly. The due
   * date is its midnight, so any instant of the last day of grace but the first
   * is already past it.
   */
  method IsPaymentOverdue(dueDate: int, graceDays: int, today: int, msOfDay: nat) returns (overdue: bool)
    ensures overdue <==> dueDate + graceDays < today || (dueDate + graceDays == today && msOfDay > 0)
  {
    var due := new JsDate(dueDate);
    due.SetDate(due.GetDate() + graceDays);
    MakeDayOfFields(dueDate);
    YearAndMonth(dueDate);
    MakeDayCounts(FullYear(dueDate), Month(dueDate), DateOf(dueDate));
    return today > due.day || (today == due.day && msOfDay > 0);
  }

  // ------------------------------------------------------------------- runs

  predicate IsFeeOf(row: Charge, id: nat) {
    !row.deleted && row.kind == P.LATE_FEE && row.parent == Some(id)
  }

  function FeeCount(rows: seq<Charge>, id: nat): nat {
    if rows == [] then 0
    else FeeCount(rows[..|rows| - 1], id) + if IsFeeOf(rows[|rows| - 1], id) then 1 else 0
  }

  /** Rent still pending past its grace, on a contract, and without a fee so far. */
  predicate Overdue(rows: seq<Charge>, id: nat, today: int, graceDays: int) {
    1 <= id <= |rows| && PastGrace(rows[id - 1], today, graceDays) && FeeCount(rows, id) == 0
  }

  predicate PastGrace(row: Charge, today: int, graceDays: int) {
    && !row.deleted && row.contractId.Some? && row.kind == P.RENT && row.status == P.PENDING
    && row.dueDate.Some? && row.dueDate.value < today - graceDays
  }

  /** Overdue payments numbered 1 to n. */
  function OverduePayments(rows: seq<Charge>, n: nat, today: int, graceDays: int): (ids: seq<nat>)
    requires n <= |rows|
    ensures forall i :: 0 <= i < |ids| ==> 1 <= ids[i] <= n && Overdue(rows, ids[i], today, graceDays)
    ensures forall id: nat :: id <= n && Overdue(rows, id, today, graceDays) ==> id in ids
    ensures forall i, j :: 0 <= i < j < |ids| ==> ids[i] != ids[j]
  {
    if n == 0 then []
    else OverduePayments(rows, n - 1, today, graceDays) + if Overdue(rows, n, today, graceDays) then [n] else []
  }

  function FeeRow(payment: Charge, id: nat, fee: nat, today: int): Charge {
    Charge(payment.tenantId, payment.contractId, payment.propertyId, fee, P.LATE_FEE, P.PENDING, today, Some(today), Some(id), false)
  }

  function Fees(rows: seq<Charge>, ids: seq<nat>, today: int, pct: real): seq<Charge>
    requires forall i :: 0 <= i < |ids| ==> 1 <= ids[i] <= |rows|
  {
    if ids == [] then []
    else
      var id := ids[|ids| - 1];
      var fee := LateFee(rows[id - 1].cents, pct);
      Fees(rows, ids[..|ids| - 1], today, pct) + if fee > 0 then [FeeRow(rows[id - 1], id, fee, today)] else []
  }

  function Bill(rows: seq<Charge>, today: int, graceDays: int, pct: real): seq<Charge> {
    if pct <= 0.0 then rows else rows + Fees(rows, OverduePayments(rows, |rows|, today, graceDays), today, pct)
  }

  lemma FeesNext(rows: seq<Charge>, ids: seq<nat>, i: nat, today: int, pct: real)
    requires i < |ids| && forall k :: 0 <= k < |ids| ==> 1 <= ids[k] <= |rows|
    ensures var fee := LateFee(rows[ids[i] - 1].cents, pct);
            Fees(rows, ids[..i + 1], today, pct) ==
            Fees(rows, ids[..i], today, pct) + if fee > 0 then [FeeRow(rows[ids[i] - 1], ids[i], fee, today)] else []
  {
    hide LateFee;
    assert ids[..i + 1][..i] == ids[..i];
  }

  class BillingCronService {
    var payments: seq<Charge>

    constructor (payments: seq<Charge>)
      ensures this.payments == payments
    {
      this.payments := payments;
    }

    method ApplyLateFees(today: int, graceDays: int, lateFeePct: real)
      modifies this
      ensures payments == Bill(old(payments), today, graceDays, lateFeePct)
      ensures |old(payments)| <= |payments| && payments[..|old(payments)|] == old(payments)
      ensures forall k :: |old(payments)| <= k < |payments| ==>
                && payments[k].parent.Some? && 1 <= payments[k].parent.value <= |old(payments)|
                && var rent := old(payments)[payments[k].parent.value - 1];
                && payments[k] == Charge(rent.tenantId, rent.contractId, rent.propertyId, LateFee(rent.cents, lateFeePct),
                                         P.LATE_FEE, P.PENDING, today, Some(today), payments[k].parent, false)
    {
      NewRowsAreFees(payments, today, graceDays, lateFeePct);
      hide OverduePayments, Fees;
      if lateFeePct <= 0.0 {
        return;
      }
      var overdue := OverduePayments(payments, |payments|, today, graceDays);
      ChargeFees(overdue, today, lateFeePct);
    }

    method ChargeFees(overdue: seq<nat>, today: int, lateFeePct: real)
      requires forall k :: 0 <= k < |overdue| ==> 1 <= overdue[k] <= |payments|
      modifies this
      ensures payments == old(payments) + Fees(old(payments), overdue, today, lateFeePct)
    {
      hide LateFee;
      var rows := payments;
      assert payments == rows + Fees(rows, overdue[..0], today, lateFeePct);
      hide Fees;
      for i := 0 to |overdue|
        invariant payments == rows + Fees(rows, overdue[..i], today, lateFeePct)
      {
        FeesNext(rows, overdue, i, today, lateFeePct);
        var payment := rows[overdue[i] - 1];
        var fee := CalculateLateFee(payment.cents, lateFeePct);
        FeeIsLateFee(payment.cents, lateFeePct, fee);
        if fee <= 0 {
          continue;
        }
        payments := payments + [FeeRow(payment, overdue[i], fee, today)];
      }
      assert overdue[..|overdue|] == overdue;
    }
  }

  // ------------------------------------------------------- one fee a payment

  lemma {:induction false} CountAppend(rows: seq<Charge>, more: seq<Charge>, id: nat)
    ensures FeeCount(rows + more, id) == FeeCount(rows, id) + FeeCount(more, id)
  {
    if more == [] {
      assert rows + more == rows;
    } else {
      assert (rows + more)[..|rows + more| - 1] == rows + more[..|more| - 1];
      CountAppend(rows, more[..|more| - 1], id);
    }
  }

  lemma OneCount(row: Charge, id: nat)
    ensures FeeCount([row], id) == if IsFeeOf(row, id) then 1 else 0
  {
    assert [row][..0] == [];
  }

  predicate Charged(rows: seq<Charge>, ids: seq<nat>, pct: real, id: nat)
    requires forall i :: 0 <= i < |ids| ==> 1 <= ids[i] <= |rows|
  {
    id in ids && LateFee(rows[id - 1].cents, pct) > 0
  }

  lemma ChargedOneMore(rows: seq<Charge>, ids: seq<nat>, pct: real, id: nat)
    requires ids != [] && forall i :: 0 <= i < |ids| ==> 1 <= ids[i] <= |rows|
    requires forall i, j :: 0 <= i < j < |ids| ==> ids[i] != ids[j]
    ensures var last := ids[|ids| - 1];
            && !Charged(rows, ids[..|ids| - 1], pct, last)
            && (Charged(rows, ids, pct, id) <==>
                 Charged(rows, ids[..|ids| - 1], pct, id) || (id == last && LateFee(rows[last - 1].cents, pct) > 0))
  {
    hide LateFee;
    assert ids == ids[..|ids| - 1] + [ids[|ids| - 1]];
  }

  lemma FeesOneMore(rows: seq<Charge>, ids: seq<nat>, today: int, pct: real, id: nat)
    requires ids != [] && forall i :: 0 <= i < |ids| ==> 1 <= ids[i] <= |rows|
    ensures var last := ids[|ids| - 1];
            FeeCount(Fees(rows, ids, today, pct), id) == FeeCount(Fees(rows, ids[..|ids| - 1], today, pct), id)
            + if id == last && LateFee(rows[last - 1].cents, pct) > 0 then 1 else 0
  {
    hide LateFee;
    var last := ids[|ids| - 1];
    var fee := LateFee(rows[last - 1].cents, pct);
    if fee > 0 {
      var one := FeeRow(rows[last - 1], last, fee, today);
      CountAppend(Fees(rows, ids[..|ids| - 1], today, pct), [one], id);
      OneCount(one, id);
    } else {
      assert Fees(rows, ids, today, pct) == Fees(rows, ids[..|ids| - 1], today, pct);
    }
  }

  lemma {:induction false} FeesCount(rows: seq<Charge>, ids: seq<nat>, today: int, pct: real, id: nat)
    requires forall i :: 0 <= i < |ids| ==> 1 <= ids[i] <= |rows|
    requires forall i, j :: 0 <= i < j < |ids| ==> ids[i] != ids[j]
    ensures FeeCount(Fees(rows, ids, today, pct), id) == if Charged(rows, ids, pct, id) then 1 else 0
  {
    if ids != [] {
      hide LateFee, Charged, Fees, FeeCount;
      FeesCount(rows, ids[..|ids| - 1], today, pct, id);
      ChargedOneMore(rows, ids, pct, id);
      FeesOneMore(rows, ids, today, pct, id);
    }
  }

  lemma FeeFromHalfACent(principal: nat, pct: real)
    ensures LateFee(principal, pct) > 0 <==> principal as real * pct >= 50.0
  {
    if principal > 0 && pct > 0.0 {
      assert principal as real * pct >= 0.0;
      HalfUpCharacterised(principal as real * pct / 100.0, 0);
      PercentBelow(principal as real * pct);
    } else {
      NothingPositive(principal as real, pct);
    }
  }

  lemma PercentBelow(x: real)
    requires x >= 0.0
    ensures HalfUp(x / 100.0) >= 0
  {
    HalfUpMonotone(0.0, x / 100.0);
    HalfUpExact(0);
  }

  lemma NothingPositive(x: real, y: real)
    requires x >= 0.0 && (x == 0.0 || y <= 0.0)
    ensures x * y <= 0.0
  {
  }

  /**
   * A run charges, once each, exactly the pending rents of contracts whose due
   * date and grace lie before today, which have no fee yet and whose fee comes to
   * half a cent at least; at midnight these are the rents `IsPaymentOverdue` finds.
   */
  lemma BillCount(rows: seq<Charge>, today: int, graceDays: int, pct: real, id: nat)
    ensures FeeCount(Bill(rows, today, graceDays, pct), id) == FeeCount(rows, id)
            + if 1 <= id <= |rows| && !rows[id - 1].deleted
                 && rows[id - 1].kind == P.RENT && rows[id - 1].status == P.PENDING && rows[id - 1].contractId.Some?
                 && rows[id - 1].dueDate.Some? && rows[id - 1].dueDate.value + graceDays < today
                 && FeeCount(rows, id) == 0 && rows[id - 1].cents as real * pct >= 50.0
              then 1 else 0
  {
    hide LateFee, Fees, FeeCount;
    if 1 <= id <= |rows| { FeeFromHalfACent(rows[id - 1].cents, pct); }
    if pct > 0.0 {
      var ids := OverduePayments(rows, |rows|, today, graceDays);
      CountAppend(rows, Fees(rows, ids, today, pct), id);
      FeesCount(rows, ids, today, pct, id);
    } else if 1 <= id <= |rows| {
      NothingPositive(rows[id - 1].cents as real, pct);
    }
  }

  predicate IsFeeFrom(fee: Charge, rows: seq<Charge>, ids: seq<nat>, today: int, pct: real) {
    && fee.kind == P.LATE_FEE && fee.status == P.PENDING && !fee.deleted
    && fee.paymentDate == today && fee.dueDate == Some(today)
    && fee.parent.Some? && fee.parent.value in ids && 1 <= fee.parent.value <= |rows|
    && var rent := rows[fee.parent.value - 1];
    && fee.tenantId == rent.tenantId && fee.contractId == rent.contractId && fee.propertyId == rent.propertyId
    && fee.cents > 0 && fee.cents == LateFee(rent.cents, pct)
  }

  predicate AllFees(fees: seq<Charge>, rows: seq<Charge>, ids: seq<nat>, today: int, pct: real) {
    forall i :: 0 <= i < |fees| ==> IsFeeFrom(fees[i], rows, ids, today, pct)
  }

  lemma FeeRowIsFee(rows: seq<Charge>, ids: seq<nat>, today: int, pct: real, k: nat)
    requires k < |ids| && 1 <= ids[k] <= |rows| && LateFee(rows[ids[k] - 1].cents, pct) > 0
    ensures IsFeeFrom(FeeRow(rows[ids[k] - 1], ids[k], LateFee(rows[ids[k] - 1].cents, pct), today), rows, ids, today, pct)
  {
    hide LateFee;
    assert ids[k] in ids;
  }

  lemma MoreIds(fees: seq<Charge>, rows: seq<Charge>, ids: seq<nat>, today: int, pct: real)
    requires ids != [] && AllFees(fees, rows, ids[..|ids| - 1], today, pct)
    ensures AllFees(fees, rows, ids, today, pct)
  {
    hide LateFee;
  }

  /** No fee row ever becomes rent, and earlier rows stay as they are. */
  lemma {:induction false} FeesAreFees(rows: seq<Charge>, ids: seq<nat>, today: int, pct: real)
    requires forall i :: 0 <= i < |ids| ==> 1 <= ids[i] <= |rows|
    ensures AllFees(Fees(rows, ids, today, pct), rows, ids, today, pct)
  {
    if ids != [] {
      hide LateFee, IsFeeFrom, FeeRow;
      FeesAreFees(rows, ids[..|ids| - 1], today, pct);
      MoreIds(Fees(rows, ids[..|ids| - 1], today, pct), rows, ids, today, pct);
      if LateFee(rows[ids[|ids| - 1] - 1].cents, pct) > 0 {
        FeeRowIsFee(rows, ids, today, pct, |ids| - 1);
      }
    }
  }

  lemma {:induction false} NothingToCharge(rows: seq<Charge>, ids: seq<nat>, today: int, pct: real)
    requires forall i :: 0 <= i < |ids| ==> 1 <= ids[i] <= |rows| && LateFee(rows[ids[i] - 1].cents, pct) <= 0
    ensures Fees(rows, ids, today, pct) == []
  {
    if ids != [] { NothingToCharge(rows, ids[..|ids| - 1], today, pct); }
  }

  lemma NewRowsAreFees(rows: seq<Charge>, today: int, graceDays: int, pct: real)
    ensures var once := Bill(rows, today, graceDays, pct);
            && |rows| <= |once| && once[..|rows|] == rows
            && forall k :: |rows| <= k < |once| ==>
                 && once[k].parent.Some? && 1 <= once[k].parent.value <= |rows|
                 && var rent := rows[once[k].parent.value - 1];
                 && once[k] == Charge(rent.tenantId, rent.contractId, rent.propertyId, LateFee(rent.cents, pct),
                                      P.LATE_FEE, P.PENDING, today, Some(today), once[k].parent, false)
  {
    if pct > 0.0 {
      var charged := OverduePayments(rows, |rows|, today, graceDays);
      FeesAreFees(rows, charged, today, pct);
      var fees := Fees(rows, charged, today, pct);
      hide LateFee, Fees;
      assert forall k :: 0 <= k < |fees| ==> IsFeeFrom(fees[k], rows, charged, today, pct);
    }
  }

  /** A second run on the same day changes nothing. */
  lemma BillAgain(rows: seq<Charge>, today: int, graceDays: int, pct: real)
    ensures var once := Bill(rows, today, graceDays, pct); Bill(once, today, graceDays, pct) == once
  {
    hide LateFee, Fees;
    var once := Bill(rows, today, graceDays, pct);
    NewRowsAreFees(rows, today, graceDays, pct);
    if pct > 0.0 {
      var ids := OverduePayments(once, |once|, today, graceDays);
      hide Bill, FeeCount, OverduePayments;
      forall i | 0 <= i < |ids| ensures LateFee(once[ids[i] - 1].cents, pct) <= 0 {
        BillCount(rows, today, graceDays, pct, ids[i]);
        FeeFromHalfACent(once[ids[i] - 1].cents, pct);
        assert Overdue(once, ids[i], today, graceDays);
        assert ids[i] <= |rows| && once[ids[i] - 1] == once[..|rows|][ids[i] - 1];
      }
      NothingToCharge(once, ids, today, pct);
    }
  }

  // ------------------------------------------------------------ over all runs

  /** A run that has read the overdue payments and still has some of them to charge. */
  datatype Task = Task(read: seq<Charge>, todo: seq<nat>, today: int, pct: real)

  datatype Desk = Desk(rows: seq<Charge>, tasks: map<nat, Task>)

  /**
   * A run is one query and one insertion a payment, and several may overlap;
   * `RunStep` is a run nothing interrupts. Next to them rows are added, fees filed
   * by hand among them, change, and are deleted.
   */
  datatype Step =
    | RunStep(today: int, graceDays: int, pct: real)
    | SelectStep(run: nat, today: int, graceDays: int, pct: real)
    | ChargeStep(run: nat)
    | QuitStep(run: nat)
    | AddStep(row: Charge)
    | ChangeStep(id: nat, cents: nat, status: P.PaymentStatus, dueDate: Option<int>)
    | DeleteStep(id: nat)

  /** Deleting a payment clears the parent of its children. */
  function Deleted(row: Charge, position: nat, id: nat): Charge {
    if position + 1 == id then row.(deleted := true)
    else if row.parent == Some(id) then row.(parent := None)
    else row
  }

  /** The insertion of the next fee; a payment deleted since cannot be its parent, and the run ends. */
  function ChargeNext(d: Desk, run: nat): Desk
    requires run in d.tasks && d.tasks[run].todo != []
  {
    var task := d.tasks[run];
    var id := task.todo[0];
    if !(1 <= id <= |task.read| && 1 <= id <= |d.rows|) || d.rows[id - 1].deleted then d.(tasks := d.tasks - {run})
    else
      var fee := LateFee(task.read[id - 1].cents, task.pct);
      Desk(d.rows + if fee > 0 then [FeeRow(task.read[id - 1], id, fee, task.today)] else [],
           d.tasks[run := task.(todo := task.todo[1..])])
  }

  function Apply(d: Desk, step: Step): Desk {
    match step
    case RunStep(today, graceDays, pct) => d.(rows := Bill(d.rows, today, graceDays, pct))
    case SelectStep(run, today, graceDays, pct) =>
      if run in d.tasks || pct <= 0.0 then d
      else d.(tasks := d.tasks[run := Task(d.rows, OverduePayments(d.rows, |d.rows|, today, graceDays), today, pct)])
    case ChargeStep(run) => if run in d.tasks && d.tasks[run].todo != [] then ChargeNext(d, run) else d
    case QuitStep(run) => d.(tasks := d.tasks - {run})
    case AddStep(row) => d.(rows := d.rows + [row])
    case ChangeStep(id, cents, status, dueDate) =>
      if 1 <= id <= |d.rows|
      then d.(rows := d.rows[id - 1 := d.rows[id - 1].(cents := cents, status := status, dueDate := dueDate)]) else d
    case DeleteStep(id) => d.(rows := seq(|d.rows|, i requires 0 <= i < |d.rows| => Deleted(d.rows[i], i, id)))
  }

  function Run(d: Desk, steps: seq<Step>): Desk {
    if steps == [] then d else Apply(Run(d, steps[..|steps| - 1]), steps[|steps| - 1])
  }

  lemma {:induction false} SameFees(before: seq<Charge>, after: seq<Charge>, id: nat)
    requires |before| == |after|
    requires forall i :: 0 <= i < |before| ==> IsFeeOf(before[i], id) == IsFeeOf(after[i], id)
    ensures FeeCount(before, id) == FeeCount(after, id)
  {
    if before != [] { SameFees(before[..|before| - 1], after[..|after| - 1], id); }
  }

  lemma {:induction false} FewerFees(before: seq<Charge>, after: seq<Charge>, id: nat)
    requires |before| == |after|
    requires forall i :: 0 <= i < |before| && IsFeeOf(after[i], id) ==> IsFeeOf(before[i], id)
    ensures FeeCount(after, id) <= FeeCount(before, id)
  {
    if before != [] { FewerFees(before[..|before| - 1], after[..|after| - 1], id); }
  }

  /** Deleting a payment leaves its fees without a parent. */
  lemma DeletionFreesFees(d: Desk, id: nat)
    ensures FeeCount(Apply(d, DeleteStep(id)).rows, id) == 0
  {
    NoFees(Apply(d, DeleteStep(id)).rows, id);
  }

  lemma {:induction false} NoFees(rows: seq<Charge>, id: nat)
    requires forall i :: 0 <= i < |rows| ==> !IsFeeOf(rows[i], id)
    ensures FeeCount(rows, id) == 0
  {
    if rows != [] { NoFees(rows[..|rows| - 1], id); }
  }

  /** How far a step moves the fees of a payment. */
  function Moved(d: Desk, step: Step, id: nat): int {
    FeeCount(Apply(d, step).rows, id) - FeeCount(d.rows, id)
  }

  predicate Bills(step: Step) {
    step.RunStep? || step.ChargeStep?
  }

  /** An insertion of a fee of the payment that finds one already there. */
  predicate Doubles(d: Desk, step: Step, id: nat) {
    step.ChargeStep? && Moved(d, step, id) > 0 && FeeCount(d.rows, id) > 0
  }

  /** Fees of a payment that the runs among the steps added. */
  function FeesAdded(d: Desk, steps: seq<Step>, id: nat): int {
    if steps == [] then 0
    else
      FeesAdded(d, steps[..|steps| - 1], id)
      + if Bills(steps[|steps| - 1]) then Moved(Run(d, steps[..|steps| - 1]), steps[|steps| - 1], id) else 0
  }

  /** Fees of a payment that deletions among the steps took away. */
  function FeesRemoved(d: Desk, steps: seq<Step>, id: nat): int {
    if steps == [] then 0
    else
      FeesRemoved(d, steps[..|steps| - 1], id)
      - if steps[|steps| - 1].DeleteStep? then Moved(Run(d, steps[..|steps| - 1]), steps[|steps| - 1], id) else 0
  }

  function TimesDoubled(d: Desk, steps: seq<Step>, id: nat): nat {
    if steps == [] then 0
    else TimesDoubled(d, steps[..|steps| - 1], id) + if Doubles(Run(d, steps[..|steps| - 1]), steps[|steps| - 1], id) then 1 else 0
  }

  lemma ChargeMoves(d: Desk, run: nat, id: nat)
    ensures 0 <= Moved(d, ChargeStep(run), id) <= 1
    ensures Moved(d, ChargeStep(run), id) > 0 ==> run in d.tasks && d.tasks[run].todo != [] && d.tasks[run].todo[0] == id
  {
    hide LateFee;
    if run in d.tasks && d.tasks[run].todo != [] {
      var task := d.tasks[run];
      var k := task.todo[0];
      if 1 <= k <= |task.read| && 1 <= k <= |d.rows| && !d.rows[k - 1].deleted {
        var fee := LateFee(task.read[k - 1].cents, task.pct);
        if fee > 0 {
          CountAppend(d.rows, [FeeRow(task.read[k - 1], k, fee, task.today)], id);
          OneCount(FeeRow(task.read[k - 1], k, fee, task.today), id);
        } else {
          assert d.rows + [] == d.rows;
        }
      }
    }
  }

  /** A run adds at most one fee, an undisturbed one only if there is none, and only a deletion takes one away. */
  lemma StepMovesFees(d: Desk, step: Step, id: nat)
    ensures Bills(step) ==> 0 <= Moved(d, step, id) <= 1
    ensures step.RunStep? && FeeCount(d.rows, id) > 0 ==> Moved(d, step, id) == 0
    ensures !Bills(step) && !step.DeleteStep? ==> Moved(d, step, id) >= 0
    ensures step.DeleteStep? ==> Moved(d, step, id) <= 0
  {
    match step
    case RunStep(today, graceDays, pct) => BillCount(d.rows, today, graceDays, pct, id);
    case ChargeStep(run) => ChargeMoves(d, run, id);
    case AddStep(row) =>
      CountAppend(d.rows, [row], id);
      OneCount(row, id);
    case ChangeStep(_, _, _, _) => SameFees(d.rows, Apply(d, step).rows, id);
    case DeleteStep(_) => FewerFees(d.rows, Apply(d, step).rows, id);
    case _ =>
  }

  function Has(rows: seq<Charge>, id: nat): int {
    if FeeCount(rows, id) > 0 then 1 else 0
  }

  /**
   * In every run of steps the runs add at most one fee to a payment more than
   * deletions took away and overlapping insertions doubled, and one less if it
   * began with a fee.
   */
  lemma {:induction false} AtMostOneFee(d: Desk, steps: seq<Step>, id: nat)
    ensures 0 <= FeesAdded(d, steps, id)
              <= FeesRemoved(d, steps, id) + TimesDoubled(d, steps, id) + Has(Run(d, steps).rows, id) - Has(d.rows, id)
  {
    if steps != [] {
      AtMostOneFee(d, steps[..|steps| - 1], id);
      StepMovesFees(Run(d, steps[..|steps| - 1]), steps[|steps| - 1], id);
    }
  }

  /** A run reads a payment as overdue only while it has no fee. */
  ghost predicate TasksSound(d: Desk) {
    forall r :: r in d.tasks ==> forall i :: 0 <= i < |d.tasks[r].todo| ==> FeeCount(d.tasks[r].read, d.tasks[r].todo[i]) == 0
  }

  lemma {:induction false} RunSound(d: Desk, steps: seq<Step>)
    requires d.tasks == map[]
    ensures TasksSound(Run(d, steps))
  {
    if steps != [] { RunSound(d, steps[..|steps| - 1]); }
  }

  /** So an insertion doubles a fee only if one was added since its run read the rows. */
  lemma DoublesWhatCameSince(d: Desk, steps: seq<Step>, run: nat, id: nat)
    requires d.tasks == map[] && Doubles(Run(d, steps), ChargeStep(run), id)
    ensures var now := Run(d, steps); run in now.tasks && FeeCount(now.tasks[run].read, id) == 0 < FeeCount(now.rows, id)
  {
    hide Apply, FeeCount;
    RunSound(d, steps);
    ChargeMoves(Run(d, steps), run, id);
  }

  // ------------------------------------------------- a run nothing interrupts

  function ChargeSteps(n: nat, run: nat): (steps: seq<Step>)
    ensures |steps| == n
  {
    if n == 0 then [] else ChargeSteps(n - 1, run) + [ChargeStep(run)]
  }

  /** The desk of a run alone after its first n insertions. */
  function AfterCharges(d: Desk, run: nat, n: nat): Desk
    requires run in d.tasks && n <= |d.tasks[run].todo| && AllChargeable(d, run)
  {
    var task := d.tasks[run];
    Desk(d.rows + Fees(d.rows, task.todo[..n], task.today, task.pct), d.tasks[run := task.(todo := task.todo[n..])])
  }

  predicate AllChargeable(d: Desk, run: nat)
    requires run in d.tasks
  {
    forall i :: 0 <= i < |d.tasks[run].todo| ==> 1 <= d.tasks[run].todo[i] <= |d.rows| && !d.rows[d.tasks[run].todo[i] - 1].deleted
  }

  lemma ChargeOne(d: Desk, run: nat, n: nat)
    requires run in d.tasks && n < |d.tasks[run].todo| && d.rows == d.tasks[run].read && AllChargeable(d, run)
    ensures Apply(AfterCharges(d, run, n), ChargeStep(run)) == AfterCharges(d, run, n + 1)
  {
    hide LateFee, Fees;
    var task := d.tasks[run];
    FeesNext(d.rows, task.todo, n, task.today, task.pct);
    assert task.todo[n..][0] == task.todo[n] && task.todo[n..][1..] == task.todo[n + 1..];
  }

  lemma {:induction false} ChargesRun(d: Desk, run: nat, n: nat)
    requires run in d.tasks && n <= |d.tasks[run].todo| && d.rows == d.tasks[run].read && AllChargeable(d, run)
    ensures Run(d, ChargeSteps(n, run)) == AfterCharges(d, run, n)
  {
    hide AfterCharges, Apply;
    if n == 0 {
      NothingCharged(d, run);
    } else {
      ChargesRun(d, run, n - 1);
      ChargeOne(d, run, n - 1);
      LastCharge(d, run, n);
    }
  }

  lemma NothingCharged(d: Desk, run: nat)
    requires run in d.tasks && AllChargeable(d, run)
    ensures AfterCharges(d, run, 0) == d
  {
    assert d.rows + [] == d.rows && d.tasks[run].todo[0..] == d.tasks[run].todo;
    assert d.tasks[run := d.tasks[run]] == d.tasks;
  }

  lemma LastCharge(d: Desk, run: nat, n: nat)
    requires n > 0
    ensures Run(d, ChargeSteps(n, run)) == Apply(Run(d, ChargeSteps(n - 1, run)), ChargeStep(run))
  {
    hide Apply;
    assert ChargeSteps(n, run)[..n - 1] == ChargeSteps(n - 1, run);
  }

  /** Query and insertions with nothing in between are the run as one step. */
  lemma BillIsRun(d: Desk, run: nat, today: int, graceDays: int, pct: real)
    requires run !in d.tasks && pct > 0.0
    ensures var n := |OverduePayments(d.rows, |d.rows|, today, graceDays)|;
            var after := Run(Apply(d, SelectStep(run, today, graceDays, pct)), ChargeSteps(n, run));
            Apply(after, QuitStep(run)) == Apply(d, RunStep(today, graceDays, pct))
  {
    hide LateFee, Fees;
    var ids := OverduePayments(d.rows, |d.rows|, today, graceDays);
    var selected := Apply(d, SelectStep(run, today, graceDays, pct));
    forall i | 0 <= i < |ids| ensures !d.rows[ids[i] - 1].deleted {
      assert Overdue(d.rows, ids[i], today, graceDays);
    }
    ChargesRun(selected, run, |ids|);
    assert ids[..|ids|] == ids;
    var after := Run(selected, ChargeSteps(|ids|, run));
    assert after.tasks - {run} == d.tasks;
  }

  // -------------------------------------------------------------- witnesses

  /** Rent of 100.00 due on day 0, on a contract. */
  const RENT_ROW := Charge(1, Some(1), 1, 10000, P.RENT, P.PENDING, 0, Some(0), None, false)

  const FEE_ROW := FeeRow(RENT_ROW, 1, 200, 10)

  const START := Desk([RENT_ROW], map[])

  lemma FirstRunCharges()
    ensures OverduePayments([RENT_ROW], 1, 10, 5) == [1]
    ensures Bill([RENT_ROW], 10, 5, 2.0) == [RENT_ROW, FEE_ROW]
    ensures LateFee(10000, 2.0) == 200
  {
    HalfUpExact(200);
    assert LateFee(10000, 2.0) == 200;
    assert FeeCount([RENT_ROW], 1) == 0 by { OneCount(RENT_ROW, 1); }
    assert OverduePayments([RENT_ROW], 0, 10, 5) == [];
    assert OverduePayments([RENT_ROW], 1, 10, 5) == [1];
    assert [1][..0] == [];
    assert Fees([RENT_ROW], [1], 10, 2.0) == [FEE_ROW];
  }

  const CHARGED := Desk([RENT_ROW, FEE_ROW], map[])

  const CLEARED := Desk([RENT_ROW, FEE_ROW.(deleted := true)], map[])

  lemma WitnessCounts()
    ensures FeeCount([RENT_ROW], 1) == 0 && FeeCount(CHARGED.rows, 1) == 1 && FeeCount(CLEARED.rows, 1) == 0
    ensures Apply(CHARGED, DeleteStep(2)) == CLEARED
  {
    hide Bill;
    OneCount(RENT_ROW, 1);
    assert CHARGED.rows[..1] == [RENT_ROW] && CLEARED.rows[..1] == [RENT_ROW];
  }

  lemma RunsCharge()
    ensures Apply(START, RunStep(10, 5, 2.0)) == CHARGED
    ensures Moved(CLEARED, RunStep(10, 5, 2.0), 1) == 1
  {
    hide Bill, LateFee, FeeCount;
    FirstRunCharges();
    WitnessCounts();
    BillCount(CLEARED.rows, 10, 5, 2.0, 1);
    assert Overdue(CLEARED.rows, 1, 10, 5);
  }

  lemma OneMore(d: Desk, before: Desk, steps: seq<Step>, last: Step, id: nat)
    requires Run(d, steps) == before
    ensures var more := steps + [last];
            && Run(d, more) == Apply(before, last)
            && FeesAdded(d, more, id) == FeesAdded(d, steps, id) + (if Bills(last) then Moved(before, last, id) else 0)
            && FeesRemoved(d, more, id) == FeesRemoved(d, steps, id) - (if last.DeleteStep? then Moved(before, last, id) else 0)
            && TimesDoubled(d, more, id) == TimesDoubled(d, steps, id) + (if Doubles(before, last, id) then 1 else 0)
  {
    hide Apply, Moved, Doubles;
    assert (steps + [last])[..|steps|] == steps;
  }

  /** A fee is deleted while pending, and the next run files a second one. */
  lemma SecondFeeAfterDeletion()
    ensures var steps := [RunStep(10, 5, 2.0), DeleteStep(2), RunStep(10, 5, 2.0)];
            FeesAdded(START, steps, 1) == 2 && FeesRemoved(START, steps, 1) == 1 && TimesDoubled(START, steps, 1) == 0
  {
    hide Apply, Moved, Run, FeesAdded, FeesRemoved, TimesDoubled, RENT_ROW, START, CHARGED, CLEARED;
    var run, delete := RunStep(10, 5, 2.0), DeleteStep(2);
    WitnessMoves();
    assert [] + [run] == [run] && [run] + [delete] == [run, delete] && [run, delete] + [run] == [run, delete, run];
    OneMore(START, START, [], run, 1);
    OneMore(START, CHARGED, [run], delete, 1);
    OneMore(START, CLEARED, [run, delete], run, 1);
  }

  lemma WitnessMoves()
    ensures Moved(START, RunStep(10, 5, 2.0), 1) == 1 && Moved(CHARGED, DeleteStep(2), 1) == -1 && Moved(CLEARED, RunStep(10, 5, 2.0), 1) == 1
    ensures Apply(START, RunStep(10, 5, 2.0)) == CHARGED && Apply(CHARGED, DeleteStep(2)) == CLEARED
    ensures Run(START, []) == START && FeesAdded(START, [], 1) == 0 == FeesRemoved(START, [], 1) && TimesDoubled(START, [], 1) == 0
  {
    hide Apply, FeeCount, RENT_ROW;
    WitnessCounts();
    RunsCharge();
  }

  // Two runs that both read the payment before either charges it.
  const OVERLAP := [SelectStep(0, 10, 5, 2.0), SelectStep(1, 10, 5, 2.0), ChargeStep(0), ChargeStep(1)]

  const READ := Task([RENT_ROW], [1], 10, 2.0)

  function BothRead(rows: seq<Charge>, first: seq<nat>, second: seq<nat>): Desk {
    Desk(rows, map[0 := READ.(todo := first), 1 := READ.(todo := second)])
  }

  lemma OverlapSteps()
    ensures Apply(Apply(START, OVERLAP[0]), OVERLAP[1]) == BothRead([RENT_ROW], [1], [1])
    ensures Apply(BothRead([RENT_ROW], [1], [1]), OVERLAP[2]) == BothRead([RENT_ROW, FEE_ROW], [], [1])
    ensures Apply(BothRead([RENT_ROW, FEE_ROW], [], [1]), OVERLAP[3]) == BothRead([RENT_ROW, FEE_ROW, FEE_ROW], [], [])
  {
    hide OverduePayments, LateFee;
    FirstRunCharges();
    assert [1][1..] == [];
    assert BothRead([RENT_ROW], [1], [1]).tasks[0 := READ.(todo := [])] == BothRead([RENT_ROW], [], [1]).tasks;
    assert BothRead([RENT_ROW], [], [1]).tasks[1 := READ.(todo := [])] == BothRead([RENT_ROW], [], []).tasks;
  }

  lemma OverlapRun()
    ensures Run(START, OVERLAP) == BothRead([RENT_ROW, FEE_ROW, FEE_ROW], [], [])
  {
    OverlapSteps();
    hide Apply, BothRead, READ, RENT_ROW, FEE_ROW, START;
    assert OVERLAP[..3][..2] == OVERLAP[..2] && OVERLAP[..2][..1] == OVERLAP[..1] && OVERLAP[..1][..0] == [];
    assert Run(START, OVERLAP[..0]) == START;
    assert Run(START, OVERLAP[..1]) == Apply(START, OVERLAP[0]);
    assert Run(START, OVERLAP[..2]) == Apply(Run(START, OVERLAP[..1]), OVERLAP[1]);
    assert Run(START, OVERLAP[..3]) == Apply(Run(START, OVERLAP[..2]), OVERLAP[2]);
  }

  lemma TwoFees()
    ensures FeeCount([RENT_ROW, FEE_ROW, FEE_ROW], 1) == 2
  {
    OneCount(RENT_ROW, 1);
    assert [RENT_ROW, FEE_ROW, FEE_ROW][..2] == [RENT_ROW, FEE_ROW] && [RENT_ROW, FEE_ROW][..1] == [RENT_ROW];
    assert FeeCount([RENT_ROW, FEE_ROW], 1) == 1;
  }

  /** Overlapping runs give one payment two fees. */
  lemma OverlappingRunsDouble()
    ensures FeeCount(Run(START, OVERLAP).rows, 1) == 2
  {
    hide Run, FeeCount, RENT_ROW, FEE_ROW, READ;
    OverlapRun();
    TwoFees();
  }
}
