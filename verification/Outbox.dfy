/**
 * The transactional outbox (accounting-outbox.service.ts and the claim and mark
 * statements of accounting-outbox.processor.ts). A row is identified by its
 * position; rows are created in order and never deleted. Times are minutes.
 */
module Outbox {
  import opened Prelude

  datatype EventKey = EventKey(eventType: string, aggregateType: string, aggregateId: string)

  datatype RowStatus = RowPending | RowProcessing | RowPosted | RowFailed

  /** `subject` is the identifier the payload carries. */
  datatype OutboxRow = OutboxRow(
    key: EventKey, subject: int, status: RowStatus, attempts: nat,
    lastError: Option<string>, nextRetryAt: Option<int>, journalEntryId: Option<nat>)

  /** Position of the row with a key, or the number of rows. */
  function FindRow(rows: seq<OutboxRow>, key: EventKey, from: nat := 0): (k: nat)
    requires from <= |rows|
    ensures from <= k <= |rows|
    ensures k < |rows| ==> rows[k].key == key
    ensures forall i :: from <= i < k ==> rows[i].key != key
    decreases |rows| - from
  {
    if from == |rows| || rows[from].key == key then from else FindRow(rows, key, from + 1)
  }

  /** The upsert: a posted row stays posted, any other becomes pending again. */
  function Requeued(row: OutboxRow, subject: int): OutboxRow {
    row.(subject := subject,
         status := if row.status == RowPosted then RowPosted else RowPending,
         lastError := None, nextRetryAt := None)
  }

  function Enqueue(rows: seq<OutboxRow>, key: EventKey, subject: int): seq<OutboxRow> {
    var k := FindRow(rows, key);
    if k < |rows| then rows[k := Requeued(rows[k], subject)]
    else rows + [OutboxRow(key, subject, RowPending, 0, None, None, None)]
  }

  predicate Eligible(row: OutboxRow, now: int) {
    (row.status == RowPending || row.status == RowFailed) && (row.nextRetryAt.None? || row.nextRetryAt.value <= now)
  }

  function ClaimedRow(row: OutboxRow): OutboxRow {
    row.(status := RowProcessing, attempts := row.attempts + 1)
  }

  function PostedRow(row: OutboxRow, entryId: nat): OutboxRow {
    row.(status := RowPosted, journalEntryId := Some(entryId), lastError := None, nextRetryAt := None)
  }

  /** Minutes until the next retry, from the attempts the worker read at its claim. */
  function Backoff(attempts: nat): int {
    Min(60, Max(1, attempts * 2))
  }

  function FailedRow(row: OutboxRow, attempts: nat, message: string, now: int): OutboxRow {
    row.(status := RowFailed, lastError := Some(message), nextRetryAt := Some(now + Backoff(attempts)))
  }

  /** A claimed event waits two minutes an attempt, an hour at most, and never less than after an earlier attempt. */
  lemma BackoffBounds(attempts: nat, later: nat)
    requires 1 <= attempts <= later
    ensures Backoff(attempts) == if attempts <= 30 then 2 * attempts else 60
    ensures 2 <= Backoff(attempts) <= 60
    ensures Backoff(attempts) <= Backoff(later)
  {
  }

  // ------------------------------------------------------------ batch claim

  /** Rows a claim takes: the oldest eligible ones, up to a limit. */
  function ClaimSet(rows: seq<OutboxRow>, limit: nat, now: int): (ids: seq<nat>)
    ensures |ids| <= limit
    ensures forall i :: 0 <= i < |ids| ==> ids[i] < |rows| && Eligible(rows[ids[i]], now)
  {
    if rows == [] then []
    else
      var ids := ClaimSet(rows[..|rows| - 1], limit, now);
      if |ids| < limit && Eligible(rows[|rows| - 1], now) then ids + [|rows| - 1] else ids
  }

  /** The claim is fair: it leaves no eligible row behind one it took, and fills the limit. */
  lemma {:induction false} ClaimIsOldestFirst(rows: seq<OutboxRow>, limit: nat, now: int)
    ensures var ids := ClaimSet(rows, limit, now);
            && (forall i, j :: 0 <= i < j < |ids| ==> ids[i] < ids[j])
            && (forall k :: 0 <= k < |rows| && Eligible(rows[k], now) && k !in ids ==>
                  |ids| == limit && forall i :: 0 <= i < |ids| ==> ids[i] < k)
  {
    if rows != [] {
      ClaimIsOldestFirst(rows[..|rows| - 1], limit, now);
    }
  }

  /** How many rows wait for a worker: pending or failed, and not told to wait any longer. */
  function DueCount(rows: seq<OutboxRow>, now: int): nat {
    if rows == [] then 0
    else
      var last := rows[|rows| - 1];
      DueCount(rows[..|rows| - 1], now)
      + if (last.status == RowPending || last.status == RowFailed) && (last.nextRetryAt.None? || last.nextRetryAt.value <= now)
        then 1 else 0
  }

  /** A claim takes the pending and failed rows that are due, failed or not, while its limit has room for them. */
  lemma {:induction false} ClaimedIff(rows: seq<OutboxRow>, limit: nat, now: int, k: nat)
    requires k < |rows|
    ensures |ClaimSet(rows, limit, now)| == Min(limit, DueCount(rows, now))
    ensures k in ClaimSet(rows, limit, now) <==>
            && (rows[k].status == RowPending || rows[k].status == RowFailed)
            && (rows[k].nextRetryAt.None? || rows[k].nextRetryAt.value <= now)
            && DueCount(rows[..k], now) < limit
  {
    var before := rows[..|rows| - 1];
    var ids := ClaimSet(before, limit, now);
    ClaimedNumber(before, limit, now);
    if k < |rows| - 1 {
      ClaimedIff(before, limit, now, k);
      assert before[..k] == rows[..k];
    } else {
      assert k !in ids;
    }
  }

  lemma {:induction false} ClaimedNumber(rows: seq<OutboxRow>, limit: nat, now: int)
    ensures |ClaimSet(rows, limit, now)| == Min(limit, DueCount(rows, now))
  {
    if rows != [] { ClaimedNumber(rows[..|rows| - 1], limit, now); }
  }

  // ---------------------------------------------------------- every history

  datatype Step =
    | EnqueueStep(key: EventKey, subject: int)
    | ClaimStep(row: nat, at: int)
    | PostedStep(row: nat, entryId: nat)
    | FailedStep(row: nat, attempts: nat, message: string, at: int)

  function Apply(rows: seq<OutboxRow>, step: Step): seq<OutboxRow> {
    match step
    case EnqueueStep(key, subject) => Enqueue(rows, key, subject)
    case ClaimStep(k, now) =>
      if k < |rows| && Eligible(rows[k], now) then rows[k := ClaimedRow(rows[k])] else rows
    case PostedStep(k, entryId) =>
      if k < |rows| then rows[k := PostedRow(rows[k], entryId)] else rows
    case FailedStep(k, attempts, message, now) =>
      if k < |rows| then rows[k := FailedRow(rows[k], attempts, message, now)] else rows
  }

  function Run(rows: seq<OutboxRow>, steps: seq<Step>): seq<OutboxRow> {
    if steps == [] then rows else Apply(Run(rows, steps[..|steps| - 1]), steps[|steps| - 1])
  }

  /** The step claims the row: it names it and finds it eligible. */
  predicate Claims(rows: seq<OutboxRow>, step: Step, k: nat) {
    step.ClaimStep? && step.row == k && k < |rows| && Eligible(rows[k], step.at)
  }

  function ClaimCount(rows: seq<OutboxRow>, steps: seq<Step>, k: nat): nat {
    if steps == [] then 0
    else
      var before := steps[..|steps| - 1];
      ClaimCount(rows, before, k) + if Claims(Run(rows, before), steps[|steps| - 1], k) then 1 else 0
  }

  /** Rows keep their place and key, and the attempts of a row count its claims exactly. */
  lemma {:induction false} AttemptsCountClaims(rows: seq<OutboxRow>, steps: seq<Step>, k: nat)
    ensures |Run(rows, steps)| >= |rows|
    ensures k < |rows| ==> Run(rows, steps)[k].key == rows[k].key
    ensures k < |Run(rows, steps)| ==>
              Run(rows, steps)[k].attempts == (if k < |rows| then rows[k].attempts else 0) + ClaimCount(rows, steps, k)
    ensures k >= |Run(rows, steps)| ==> ClaimCount(rows, steps, k) == 0
  {
    if steps != [] {
      AttemptsCountClaims(rows, steps[..|steps| - 1], k);
    }
  }

  /** The steps that can make a claimed row available again. */
  predicate Releases(step: Step, k: nat, key: EventKey) {
    (step.FailedStep? && step.row == k) || (step.EnqueueStep? && step.key == key)
  }

  /**
   * Between two claims of a row lies a failure mark or an enqueue of it: without
   * one, a row that is processing or posted is never claimed.
   */
  lemma {:induction false} ClaimsAreSeparated(rows: seq<OutboxRow>, steps: seq<Step>, k: nat)
    requires k < |rows| && (rows[k].status == RowProcessing || rows[k].status == RowPosted)
    requires forall i :: 0 <= i < |steps| ==> !Releases(steps[i], k, rows[k].key)
    ensures |Run(rows, steps)| >= |rows| && Run(rows, steps)[k].key == rows[k].key
    ensures Run(rows, steps)[k].status == RowProcessing || Run(rows, steps)[k].status == RowPosted
    ensures ClaimCount(rows, steps, k) == 0
  {
    if steps != [] {
      ClaimsAreSeparated(rows, steps[..|steps| - 1], k);
    }
  }

  /** A posted row leaves that state only by a failure mark: enqueue and claim keep it. */
  lemma {:induction false} PostedStaysIff(rows: seq<OutboxRow>, step: Step, k: nat)
    requires k < |rows| && rows[k].status == RowPosted
    ensures Apply(rows, step)[k].status == RowPosted <==> !(step.FailedStep? && step.row == k)
  {
  }

  /** The step changes the row, other than by claiming it. */
  predicate Rewrites(step: Step, k: nat, key: EventKey) {
    Releases(step, k, key) || (step.PostedStep? && step.row == k)
  }

  /** A claim changes status and attempts alone: whatever is claimed, the rest of a row stays until a mark or an enqueue. */
  lemma {:induction false} ClaimsKeepTheRest(rows: seq<OutboxRow>, steps: seq<Step>, k: nat)
    requires k < |rows| && forall i :: 0 <= i < |steps| ==> !Rewrites(steps[i], k, rows[k].key)
    ensures |Run(rows, steps)| >= |rows|
    ensures var row := Run(rows, steps)[k];
            row == rows[k].(status := row.status, attempts := rows[k].attempts + ClaimCount(rows, steps, k))
  {
    if steps != [] { ClaimsKeepTheRest(rows, steps[..|steps| - 1], k); }
  }

  /** A failed row stays as it is until its retry time, unless it is enqueued or marked again. */
  lemma {:induction false} RetryWaits(rows: seq<OutboxRow>, steps: seq<Step>, k: nat)
    requires k < |rows| && rows[k].status == RowFailed && rows[k].nextRetryAt.Some?
    requires forall i :: 0 <= i < |steps| ==> !Rewrites(steps[i], k, rows[k].key)
    requires forall i :: 0 <= i < |steps| && steps[i].ClaimStep? ==> steps[i].at < rows[k].nextRetryAt.value
    ensures |Run(rows, steps)| >= |rows| && Run(rows, steps)[k] == rows[k]
  {
    if steps != [] {
      RetryWaits(rows, steps[..|steps| - 1], k);
    }
  }

  /**
   * After a failure mark at `t` with `attempts` behind it, a row nothing else
   * touches is not claimed for min(60, 2 * attempts) minutes, and from then on by
   * any pass whose limit older rows do not fill.
   */
  lemma FailedIsRetried(rows: seq<OutboxRow>, k: nat, attempts: nat, message: string, t: int, steps: seq<Step>, limit: nat, now: int)
    requires k < |rows| && attempts >= 1
    requires forall i :: 0 <= i < |steps| ==> !Rewrites(steps[i], k, rows[k].key)
    requires forall i :: 0 <= i < |steps| && steps[i].ClaimStep? ==> steps[i].at < t + Min(60, 2 * attempts)
    ensures var marked := Apply(rows, FailedStep(k, attempts, message, t));
            var after := Run(marked, steps);
            && ClaimCount(marked, steps, k) == 0
            && |after| >= |rows| && after[k].status == RowFailed && after[k].lastError == Some(message)
            && (k in ClaimSet(after, limit, now) <==> t + Min(60, 2 * attempts) <= now && DueCount(after[..k], now) < limit)
  {
    var marked := Apply(rows, FailedStep(k, attempts, message, t));
    RetryWaits(marked, steps, k);
    AttemptsCountClaims(marked, steps, k);
    ClaimedIff(Run(marked, steps), limit, now, k);
  }
}
