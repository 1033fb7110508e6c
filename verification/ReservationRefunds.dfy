/**
 * Refunds of a reservation that is cancelled, declined or completed
 * (reservation-refund.service.ts). The whole refund is one transaction of its
 * caller; it is a run of single refunds that nothing interrupts.
 */
module ReservationRefunds {
  import opened Prelude
  import opened Money
  import O = Outbox
  import opened Payments
  import opened TenantTables
  import PS = PaymentSystem
  import opened EndToEnd
  import opened RefundConservation

  /** Approved payments of a reservation among those numbered 1 to n. */
  function ApprovedOf(payments: seq<Payment>, reservationId: int, n: nat): (ids: seq<nat>)
    requires n <= |payments|
    ensures forall i :: 0 <= i < |ids| ==> 1 <= ids[i] <= n
  {
    if n == 0 then [] else ApprovedOf(payments, reservationId, n - 1) + if OfReservation(payments[n - 1], reservationId) then [n] else []
  }

  predicate AreApproved(ids: seq<nat>, payments: seq<Payment>, reservationId: int) {
    forall i :: 0 <= i < |ids| ==> 1 <= ids[i] <= |payments| && OfReservation(payments[ids[i] - 1], reservationId)
  }

  predicate Increase(ids: seq<nat>) {
    forall i, j :: 0 <= i < j < |ids| ==> ids[i] < ids[j]
  }

  lemma {:induction false} ApprovedOrdered(payments: seq<Payment>, reservationId: int, n: nat)
    requires n <= |payments|
    ensures AreApproved(ApprovedOf(payments, reservationId, n), payments, reservationId)
    ensures Increase(ApprovedOf(payments, reservationId, n))
  {
    if n > 0 {
      ApprovedOrdered(payments, reservationId, n - 1);
      var before := ApprovedOf(payments, reservationId, n - 1);
      assert before + [] == before;
    }
  }

  /** The query misses no approved payment of the reservation. */
  lemma {:induction false} ApprovedComplete(payments: seq<Payment>, reservationId: int, n: nat, id: nat)
    requires 1 <= id <= n <= |payments| && OfReservation(payments[id - 1], reservationId)
    ensures id in ApprovedOf(payments, reservationId, n)
  {
    hide OfReservation;
    if id < n { ApprovedComplete(payments, reservationId, n - 1, id); }
  }

  /** What each payment is refunded; a share of nothing is no refund. */
  type Shares = seq<nat>

  /** Refunds the first n shares one payment after the other. */
  function RefundShares(d: Desk, ids: seq<nat>, shares: Shares, n: nat, date: string): Desk
    requires n <= |ids| == |shares|
  {
    if n == 0 then d else InsertRefund(RefundShares(d, ids, shares, n - 1, date), ids[n - 1], shares[n - 1], date)
  }

  function Total(shares: Shares, n: nat): nat
    requires n <= |shares|
  {
    if n == 0 then 0 else Total(shares, n - 1) + shares[n - 1]
  }

  function Amounts(payments: seq<Payment>, ids: seq<nat>): (amounts: seq<nat>)
    requires forall i :: 0 <= i < |ids| ==> 1 <= ids[i] <= |payments|
    ensures |amounts| == |ids|
    ensures forall i :: 0 <= i < |ids| ==> amounts[i] == payments[ids[i] - 1].amount
  {
    seq(|ids|, i requires 0 <= i < |ids| => payments[ids[i] - 1].amount)
  }

  function PercentShares(amounts: seq<nat>, pct: real): (shares: Shares)
    ensures |shares| == |amounts|
  {
    seq(|amounts|, i requires 0 <= i < |amounts| => PercentShare(amounts[i], pct))
  }

  function PercentShare(amount: nat, pct: real): nat {
    Max(0, PercentOf(amount as real, pct))
  }

  /** A positive percentage of a payment is refunded to the nearest cent, half a cent going up. */
  lemma PercentShareIsHalfUp(amount: nat, pct: real)
    requires pct > 0.0
    ensures var exact := amount as real * pct / 100.0; exact - 0.5 < PercentShare(amount, pct) as real <= exact + 0.5
  {
    assert amount as real * pct >= 0.0;
    HalfUpCharacterised(amount as real * pct / 100.0, PercentOf(amount as real, pct));
  }

  lemma PercentShareAt(amounts: seq<nat>, pct: real, i: nat)
    requires i < |amounts|
    ensures PercentShares(amounts, pct)[i] == PercentShare(amounts[i], pct)
  {
  }

  /** What is left of an amount after the first n payments took up to their own amounts. */
  function Left(amounts: seq<nat>, cents: nat, n: nat): (left: nat)
    requires n <= |amounts|
  {
    if n == 0 then cents
    else
      var before := Left(amounts, cents, n - 1);
      before - Min(before, amounts[n - 1])
  }

  function FixedShares(amounts: seq<nat>, cents: nat): (shares: Shares)
    ensures |shares| == |amounts|
  {
    seq(|amounts|, i requires 0 <= i < |amounts| => Share(amounts, cents, i))
  }

  function Share(amounts: seq<nat>, cents: nat, i: nat): nat
    requires i < |amounts|
  {
    Min(Left(amounts, cents, i), amounts[i])
  }

  lemma {:induction false} LeftIs(amounts: seq<nat>, cents: nat, n: nat)
    requires n <= |amounts|
    ensures Left(amounts, cents, n) == Max(0, cents - Total(amounts, n))
  {
    if n > 0 { LeftIs(amounts, cents, n - 1); }
  }

  lemma {:induction false} SharesAndLeft(amounts: seq<nat>, cents: nat, n: nat)
    requires n <= |amounts|
    ensures Total(FixedShares(amounts, cents), n) == cents - Left(amounts, cents, n)
  {
    if n > 0 {
      SharesAndLeft(amounts, cents, n - 1);
      assert FixedShares(amounts, cents)[n - 1] == Share(amounts, cents, n - 1);
      hide FixedShares;
    }
  }

  /** A fixed amount is refunded up to what the approved payments amount to. */
  lemma FixedTotal(amounts: seq<nat>, cents: nat)
    ensures Total(FixedShares(amounts, cents), |amounts|) == Min(cents, Total(amounts, |amounts|))
  {
    hide Total, Left, FixedShares;
    SharesAndLeft(amounts, cents, |amounts|);
    LeftIs(amounts, cents, |amounts|);
  }

  /** Once nothing is left the remaining payments are not refunded. */
  lemma {:induction false} RestGetsNothing(d: Desk, ids: seq<nat>, shares: Shares, i: nat, n: nat, date: string)
    requires i <= n <= |ids| == |shares| && forall k :: i <= k < n ==> shares[k] == 0
    ensures RefundShares(d, ids, shares, n, date) == RefundShares(d, ids, shares, i, date)
    ensures Total(shares, n) == Total(shares, i)
  {
    if i < n { RestGetsNothing(d, ids, shares, i, n - 1, date); }
  }

  // ------------------------------------------------------ a run of refunds

  function ShareSteps(ids: seq<nat>, shares: Shares, n: nat, date: string): (steps: seq<PS.Step>)
    requires n <= |ids| == |shares|
    ensures |steps| == n
  {
    seq(n, i requires 0 <= i < n => PS.InsertRefund(ids[i], shares[i], date))
  }

  /** The transaction is a run of the state machine, so what holds of every run holds of it. */
  lemma {:induction false} SharesAreRun(s: PS.System, ids: seq<nat>, shares: Shares, n: nat, date: string)
    requires n <= |ids| == |shares|
    ensures PS.Run(s, ShareSteps(ids, shares, n, date)) == s.(desk := RefundShares(s.desk, ids, shares, n, date))
  {
    if n > 0 {
      SharesAreRun(s, ids, shares, n - 1, date);
      assert ShareSteps(ids, shares, n, date)[..n - 1] == ShareSteps(ids, shares, n - 1, date);
      hide RefundShares;
    }
  }

  /** The transaction leaves payments outside the reservation, and those still to come, alone. */
  lemma {:induction false} OthersKept(d: Desk, ids: seq<nat>, shares: Shares, n: nat, date: string, id: nat)
    requires n <= |ids| == |shares| && 1 <= id <= |d.payments| && forall i :: 0 <= i < n ==> ids[i] != id
    ensures var after := RefundShares(d, ids, shares, n, date);
            |after.payments| == |d.payments| && after.outbox == d.outbox && after.payments[id - 1] == d.payments[id - 1]
  {
    if n > 0 { OthersKept(d, ids, shares, n - 1, date, id); }
  }

  /**
   * A full refund of an approved payment keeps its refunds within its amount
   * exactly when nothing was refunded of it before.
   */
  lemma FullRefundFitsIff(s: PS.System, id: int, date: string)
    requires Exists(s.desk, id) && s.desk.payments[id - 1].amount > 0 && s.desk.payments[id - 1].status == APPROVED
    requires s.desk.payments[id - 1].reservationId.Some?
    ensures PercentOf(s.desk.payments[id - 1].amount as real, 100.0) == s.desk.payments[id - 1].amount
    ensures Fits(s, PS.InsertRefund(id, s.desk.payments[id - 1].amount, date), id) <==> RefundTotal(s.desk.refunds, id) == 0
  {
    var p := s.desk.payments[id - 1];
    HalfUpExact(p.amount);
    assert p.amount as real * 100.0 / 100.0 == p.amount as real;
    assert InsertRefund(s.desk, id, p.amount, date).payments[id - 1].status == REFUNDED;
  }

  // ----------------------------------------------------------------- service

  /** The next payment is still approved when its turn comes. */
  lemma NextApproved(d: Desk, ids: seq<nat>, shares: Shares, i: nat, reservationId: int, date: string)
    requires i < |ids| == |shares| && ids == ApprovedOf(d.payments, reservationId, |d.payments|)
    ensures var before := RefundShares(d, ids, shares, i, date);
            && 1 <= ids[i] <= |before.payments|
            && OfReservation(before.payments[ids[i] - 1], reservationId)
  {
    ApprovedOrdered(d.payments, reservationId, |d.payments|);
    assert AreApproved(ids, d.payments, reservationId) && Increase(ids);
    OthersKept(d, ids, shares, i, date, ids[i]);
  }

  lemma NothingYet(d: Desk, ids: seq<nat>, shares: Shares, date: string)
    requires |ids| == |shares|
    ensures RefundShares(d, ids, shares, 0, date) == d && Total(shares, 0) == 0
  {
  }

  class ReservationRefundService {
    const db: Tables

    constructor (db: Tables)
      ensures this.db == db
    {
      this.db := db;
    }

    /** The two statements of one refund: the row, then the status whatever the amount. */
    method RefundPayment(id: nat, cents: nat, today: string)
      requires Exists(db.GetDesk(), id) && cents > 0
      requires db.payments[id - 1].reservationId.Some? && db.payments[id - 1].status == APPROVED
      modifies db`payments, db`refunds
      ensures db.GetDesk() == InsertRefund(old(db.GetDesk()), id, cents, today)
      ensures RefundTotal(db.refunds, id) == RefundTotal(old(db.refunds), id) + cents && db.payments[id - 1].status == REFUNDED
    {
      ghost var before := db.refunds;
      db.refunds := db.refunds + [Refund(id, cents, today, false, None)];
      assert db.refunds[..|db.refunds| - 1] == before;
      db.payments := db.payments[id - 1 := db.payments[id - 1].(status := REFUNDED)];
    }

    /** The turn of one payment in the loop over the approved payments of the reservation. */
    method RefundTurn(ghost before: Desk, ids: seq<nat>, ghost shares: Shares, i: nat, cents: nat, reservationId: int, today: string)
      requires i < |ids| == |shares| && ids == ApprovedOf(before.payments, reservationId, |before.payments|)
      requires cents == shares[i] && db.GetDesk() == RefundShares(before, ids, shares, i, today)
      modifies db`payments, db`refunds
      ensures db.GetDesk() == RefundShares(before, ids, shares, i + 1, today)
    {
      NextApproved(before, ids, shares, i, reservationId, today);
      if cents > 0 {
        RefundPayment(ids[i], cents, today);
      }
      hide ApprovedOf, RefundTotal;
    }

    /** Refunds a percentage of every approved payment of the reservation. */
    method RefundApprovedPayments(reservationId: int, refundPercentage: real, today: string) returns (totalRefunded: nat)
      modifies db`payments, db`refunds
      ensures refundPercentage <= 0.0 ==> totalRefunded == 0 && db.GetDesk() == old(db.GetDesk())
      ensures refundPercentage > 0.0 ==>
                var ids := ApprovedOf(old(db.payments), reservationId, |old(db.payments)|);
                var shares := PercentShares(Amounts(old(db.payments), ids), refundPercentage);
                && db.GetDesk() == RefundShares(old(db.GetDesk()), ids, shares, |ids|, today)
                && totalRefunded == Total(shares, |ids|)
    {
      if refundPercentage <= 0.0 {
        return 0;
      }
      hide PercentShare, RefundTotal, ApprovedOf, PercentShares, Amounts, RefundShares;
      ghost var before := db.GetDesk();
      var payments := db.payments;
      var ids := ApprovedOf(payments, reservationId, |payments|);
      ghost var shares := PercentShares(Amounts(payments, ids), refundPercentage);
      totalRefunded := 0;
      NothingYet(before, ids, shares, today);
      for i := 0 to |ids|
        invariant db.GetDesk() == RefundShares(before, ids, shares, i, today)
        invariant totalRefunded == Total(shares, i)
      {
        PercentShareAt(Amounts(payments, ids), refundPercentage, i);
        var refundAmount := PercentShare(payments[ids[i] - 1].amount, refundPercentage);
        RefundTurn(before, ids, shares, i, refundAmount, reservationId, today);
        totalRefunded := totalRefunded + refundAmount;
      }
    }

    /** Refunds a fixed amount, from each approved payment up to its own amount. */
    method RefundAbsoluteAmount(reservationId: int, amount: real, today: string) returns (totalRefunded: nat)
      modifies db`payments, db`refunds
      ensures amount <= 0.0 ==> totalRefunded == 0 && db.GetDesk() == old(db.GetDesk())
      ensures amount > 0.0 ==>
                var ids := ApprovedOf(old(db.payments), reservationId, |old(db.payments)|);
                var cents := Max(0, ToCents(amount));
                && db.GetDesk() == RefundShares(old(db.GetDesk()), ids, FixedShares(Amounts(old(db.payments), ids), cents), |ids|, today)
                && totalRefunded == Min(cents, Total(Amounts(old(db.payments), ids), |ids|))
    {
      if amount <= 0.0 {
        return 0;
      }
      HalfUpMonotone(0.0, amount * 100.0);
      HalfUpExact(0);
      totalRefunded := RefundCents(reservationId, ToCents(amount), today);
    }

    method RefundCents(reservationId: int, cents: nat, today: string) returns (totalRefunded: nat)
      modifies db`payments, db`refunds
      ensures var ids := ApprovedOf(old(db.payments), reservationId, |old(db.payments)|);
              && db.GetDesk() == RefundShares(old(db.GetDesk()), ids, FixedShares(Amounts(old(db.payments), ids), cents), |ids|, today)
              && totalRefunded == Min(cents, Total(Amounts(old(db.payments), ids), |ids|))
    {
      hide RefundTotal, ApprovedOf, FixedShares, Amounts, RefundShares, Left;
      ghost var before := db.GetDesk();
      var payments := db.payments;
      var ids := ApprovedOf(payments, reservationId, |payments|);
      ghost var amounts := Amounts(payments, ids);
      ghost var shares := FixedShares(amounts, cents);
      FixedTotal(amounts, cents);
      var remaining := cents;
      totalRefunded := 0;
      NothingYet(before, ids, shares, today);
      LeftIs(amounts, cents, 0);
      var i := 0;
      while i < |ids|
        invariant i <= |ids|
        invariant db.GetDesk() == RefundShares(before, ids, shares, i, today)
        invariant totalRefunded == Total(shares, i)
        invariant remaining == Left(amounts, cents, i)
      {
        if remaining <= 0 {
          NothingLeft(amounts, cents, i);
          RestGetsNothing(before, ids, shares, i, |ids|, today);
          break;
        }
        LeftNext(amounts, cents, i);
        ShareAt(amounts, cents, i);
        var refundAmount := Min(remaining, payments[ids[i] - 1].amount);
        RefundTurn(before, ids, shares, i, refundAmount, reservationId, today);
        remaining := remaining - refundAmount;
        totalRefunded := totalRefunded + refundAmount;
        i := i + 1;
      }
    }
  }

  lemma ShareAt(amounts: seq<nat>, cents: nat, i: nat)
    requires i < |amounts|
    ensures FixedShares(amounts, cents)[i] == Min(Left(amounts, cents, i), amounts[i])
  {
  }

  lemma LeftNext(amounts: seq<nat>, cents: nat, i: nat)
    requires i < |amounts|
    ensures Left(amounts, cents, i + 1) == Left(amounts, cents, i) - Min(Left(amounts, cents, i), amounts[i])
  {
  }

  lemma {:induction false} TotalsGrow(amounts: seq<nat>, i: nat, n: nat)
    requires i <= n <= |amounts|
    ensures Total(amounts, i) <= Total(amounts, n)
  {
    if i < n { TotalsGrow(amounts, i, n - 1); }
  }

  lemma NothingLeft(amounts: seq<nat>, cents: nat, i: nat)
    requires i <= |amounts| && Left(amounts, cents, i) == 0
    ensures forall k :: i <= k < |amounts| ==> FixedShares(amounts, cents)[k] == 0
  {
    forall k | i <= k < |amounts| ensures FixedShares(amounts, cents)[k] == 0 {
      TotalsGrow(amounts, i, k);
      assert FixedShares(amounts, cents)[k] == Share(amounts, cents, k);
      LeftIs(amounts, cents, i);
      LeftIs(amounts, cents, k);
      hide Total, Left;
    }
  }
}
