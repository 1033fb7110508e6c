/**
 * Who holds an outbox row. A row in the hands of a worker is shared or marked
 * twice only if it was enqueued again in the meantime.
 */
module OutboxOwnership {
  import opened Prelude
  import O = Outbox
  import P = Payments
  import opened Posting
  import Ledger
  import L = LedgerRuns
  import opened PaymentSystem

  /** Every task holds a row in processing, of its own key and of no other task. */
  ghost predicate Exclusive(s: System) {
    && (forall t :: t in s.tasks ==> Holds(s.desk.outbox, s.tasks[t]))
    && (forall t, u :: t in s.tasks && u in s.tasks && t != u ==> s.tasks[t].row != s.tasks[u].row)
  }

  predicate Holds(rows: seq<O.OutboxRow>, t: Task) {
    t.row < |rows| && rows[t.row].key == t.event.key && rows[t.row].status == O.RowProcessing
  }

  /** The key a request enqueues. */
  function EnqueuedKey(s: System, step: Step): Option<O.EventKey> {
    match step
    case CreateAsAdmin(_, status, _) => if status == P.APPROVED then Some(P.PaymentKey(|s.desk.payments| + 1)) else None
    case Approve(id, _) => if id >= 0 then Some(P.PaymentKey(id)) else None
    case CreateRefund(_, _, _) => Some(P.RefundKey(|s.desk.refunds| + 1))
    case Reprocess(id) => if id >= 0 then Some(P.PaymentKey(id)) else None
    case EnqueueOther(key, _) => Some(key)
    case _ => None
  }

  /** The step enqueues no event that a worker is holding. */
  ghost predicate Quiet(s: System, step: Step) {
    var key := EnqueuedKey(s, step);
    key.Some? ==> forall t :: t in s.tasks ==> s.tasks[t].event.key != key.value
  }

  ghost predicate AllQuiet(s: System, steps: seq<Step>) {
    if steps == [] then true
    else AllQuiet(s, steps[..|steps| - 1]) && Quiet(Run(s, steps[..|steps| - 1]), steps[|steps| - 1])
  }

  predicate IsRequest(step: Step) {
    !(step.Claim? || step.Load? || step.LoadOther? || step.Enter? || step.Note? || step.Finish? || step.Break? || step.Fail? || step.Crash?)
  }

  /** A request leaves the tasks alone and changes at most the row of the key it enqueues. */
  lemma RequestRows(s: System, step: Step)
    requires IsRequest(step)
    ensures var rows, after := s.desk.outbox, Apply(s, step).desk.outbox; var key := EnqueuedKey(s, step);
            && Apply(s, step).tasks == s.tasks && |rows| <= |after|
            && forall k :: 0 <= k < |rows| ==>
                 && after[k].key == rows[k].key
                 && (after[k] != rows[k] ==> key == Some(rows[k].key) && (rows[k].status == O.RowPosted ==> after[k].status == O.RowPosted))
  {
    hide Ledger.Post, LoadEvent, L.Apply;
  }

  /** A worker's own progress moves neither rows nor tasks to other rows. */
  lemma ProgressRows(s: System, step: Step)
    requires Exclusive(s) && (step.Load? || step.LoadOther? || step.Enter? || step.Note? || step.Break? || step.Crash?)
    ensures Exclusive(Apply(s, step)) && Apply(s, step).desk.outbox == s.desk.outbox
  {
    hide Ledger.Post, LoadEvent, O.Eligible;
  }

  /** A worker's step changes at most the row it claims or holds. */
  lemma WorkerRows(s: System, step: Step)
    requires Exclusive(s) && !IsRequest(step)
    ensures Exclusive(Apply(s, step))
    ensures var rows, after := s.desk.outbox, Apply(s, step).desk.outbox;
            |rows| == |after| && forall k :: 0 <= k < |rows| && rows[k].status == O.RowPosted ==> after[k] == rows[k]
  {
    if !(step.Claim? || step.Finish? || step.Fail?) { ProgressRows(s, step); }
    hide Ledger.Post, LoadEvent, NoteEvent;
  }

  lemma ApplyExclusive(s: System, step: Step)
    requires Exclusive(s) && Quiet(s, step)
    ensures Exclusive(Apply(s, step))
    ensures PostedKept(s.desk.outbox, Apply(s, step).desk.outbox)
  {
    if IsRequest(step) {
      RequestRows(s, step);
      hide EnqueuedKey, Apply;
    } else {
      WorkerRows(s, step);
    }
  }

  predicate PostedKept(before: seq<O.OutboxRow>, after: seq<O.OutboxRow>) {
    && |before| <= |after|
    && forall k :: 0 <= k < |before| && before[k].status == O.RowPosted ==> after[k].status == O.RowPosted
  }

  /**
   * In every run that enqueues no event a worker is holding, a row is in the
   * hands of one worker at most and posted is final.
   */
  lemma {:induction false} PostedIsFinal(s: System, steps: seq<Step>)
    requires Exclusive(s) && AllQuiet(s, steps)
    ensures Exclusive(Run(s, steps)) && PostedKept(s.desk.outbox, Run(s, steps).desk.outbox)
  {
    if steps != [] {
      PostedIsFinal(s, steps[..|steps| - 1]);
      ApplyExclusive(Run(s, steps[..|steps| - 1]), steps[|steps| - 1]);
      hide Exclusive, Quiet;
    }
  }
}
