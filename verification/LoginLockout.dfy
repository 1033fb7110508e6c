/**
 * The login attempt counter (auth-security.service.ts). Times are milliseconds;
 * a key is one lower-case address, tenant and login context.
 */
module LoginLockout {
  import opened Prelude

  const FAILED_ATTEMPTS := 5
  const WINDOW_MS := 15 * 60 * 1000
  const DURATION_MS := 15 * 60 * 1000

  datatype Key = Key(email: string, tenantSlug: string, context: string)

  datatype AttemptRow = AttemptRow(failedCount: nat, firstFailedAt: int, lastFailedAt: int, lockedUntil: Option<int>)

  predicate Locked(row: Option<AttemptRow>, now: int) {
    row.Some? && row.value.lockedUntil.Some? && row.value.lockedUntil.value > now
  }

  /** The conditions under which a failure starts a new count. */
  predicate StartsAfresh(row: Option<AttemptRow>, now: int) {
    || row.None?
    || row.value.firstFailedAt < now - WINDOW_MS
    || (row.value.lockedUntil.Some? && row.value.lockedUntil.value < now)
  }

  function AfterFailure(row: Option<AttemptRow>, now: int): AttemptRow {
    var afresh := StartsAfresh(row, now);
    var count := if afresh then 1 else row.value.failedCount + 1;
    AttemptRow(
      count,
      if afresh then now else row.value.firstFailedAt,
      now,
      if count >= FAILED_ATTEMPTS then Some(now + DURATION_MS) else None)
  }

  function RowAt(rows: map<Key, AttemptRow>, key: Key): Option<AttemptRow> {
    if key in rows then Some(rows[key]) else None
  }

  class LoginAttempts {
    var rows: map<Key, AttemptRow>

    constructor ()
      ensures rows == map[]
    {
      rows := map[];
    }

    method AssertLoginAllowed(key: Key, now: int) returns (allowed: bool)
      ensures allowed <==> !Locked(RowAt(rows, key), now)
    {
      allowed := true;
      if key in rows {
        var until := rows[key].lockedUntil;
        allowed := until.None? || until.value <= now;
      }
    }

    /** One upsert: the row of the key moves on, every other row stays. */
    method RecordFailure(key: Key, now: int) returns (row: AttemptRow)
      modifies this
      ensures row == AfterFailure(RowAt(old(rows), key), now)
      ensures var counts := key in old(rows)
                            && old(rows)[key].firstFailedAt >= now - 900000
                            && (old(rows)[key].lockedUntil.Some? ==> old(rows)[key].lockedUntil.value >= now);
              && row.failedCount == (if counts then old(rows)[key].failedCount + 1 else 1)
              && row.firstFailedAt == (if counts then old(rows)[key].firstFailedAt else now)
              && row.lastFailedAt == now
              && row.lockedUntil == (if row.failedCount >= 5 then Some(now + 900000) else None)
      ensures rows == old(rows)[key := row]
    {
      var count, first := 1, now;
      if key in rows {
        var existing := rows[key];
        if !(existing.firstFailedAt < now - WINDOW_MS
             || (existing.lockedUntil.Some? && existing.lockedUntil.value < now)) {
          count, first := existing.failedCount + 1, existing.firstFailedAt;
        }
      }
      var until := if count >= FAILED_ATTEMPTS then Some(now + DURATION_MS) else None;
      row := AttemptRow(count, first, now, until);
      rows := rows[key := row];
    }

    method RecordSuccess(key: Key)
      modifies this
      ensures rows == old(rows) - {key}
    {
      rows := rows - {key};
    }
  }

  // ----------------------------------------------------------- whole histories

  datatype Event = Failure(key: Key, time: int) | Success(key: Key, time: int)

  function Run(events: seq<Event>): map<Key, AttemptRow> {
    if events == [] then map[]
    else
      var before := Run(events[..|events| - 1]);
      match events[|events| - 1]
      case Failure(key, time) => before[key := AfterFailure(RowAt(before, key), time)]
      case Success(key, _) => before - {key}
  }

  /** The failure times of one key since its last success. */
  function Failures(events: seq<Event>, key: Key): seq<int> {
    if events == [] then []
    else
      var last := events[|events| - 1];
      var before := Failures(events[..|events| - 1], key);
      if last.key != key then before
      else if last.Success? then []
      else before + [last.time]
  }

  /** The row after failure number `k` of a list. */
  function RowAfter(times: seq<int>, k: nat): AttemptRow
    requires k < |times|
    decreases k, 1
  {
    AfterFailure(RowBefore(times, k), times[k])
  }

  function RowBefore(times: seq<int>, k: nat): Option<AttemptRow>
    requires k <= |times|
    decreases k, 0
  {
    if k == 0 then None else Some(RowAfter(times, k - 1))
  }

  lemma {:induction false} RowOfPrefix(times: seq<int>, more: seq<int>, k: nat)
    requires k < |times|
    ensures RowAfter(times + more, k) == RowAfter(times, k)
  {
    if k > 0 { RowOfPrefix(times, more, k - 1); }
  }

  /** After any events, the row of a key depends on its failures since its last success alone. */
  lemma {:induction false} RowEqualsHistory(events: seq<Event>, key: Key)
    ensures RowAt(Run(events), key) == RowBefore(Failures(events, key), |Failures(events, key)|)
  {
    if events != [] {
      var before := events[..|events| - 1];
      var last := events[|events| - 1];
      RowEqualsHistory(before, key);
      assert events == before + [last];
      if last.key == key && last.Failure? {
        var times := Failures(before, key);
        if times != [] { RowOfPrefix(times, [last.time], |times| - 1); }
        var all := times + [last.time];
        assert Failures(events, key) == all;
        assert RowBefore(all, |times|) == RowAt(Run(before), key);
        assert RowBefore(all, |all|) == Some(RowAfter(all, |times|));
      }
    }
  }

  ghost predicate Nondecreasing(times: seq<int>) {
    forall i, j :: 0 <= i <= j < |times| ==> times[i] <= times[j]
  }

  /**
   * The row reads as the last run of failures: its length, its first and last
   * time, a lock exactly at the threshold or above, all of the run inside the
   * window, and a beginning that one of the reset conditions explains.
   */
  lemma {:induction false} RowIsLastRun(times: seq<int>, k: nat)
    requires k < |times| && Nondecreasing(times)
    ensures var row := RowAfter(times, k); var start := k + 1 - row.failedCount;
            && 1 <= row.failedCount <= k + 1
            && row.firstFailedAt == times[start]
            && row.lastFailedAt == times[k] <= times[start] + WINDOW_MS
            && row.lockedUntil == (if row.failedCount >= FAILED_ATTEMPTS then Some(times[k] + DURATION_MS) else None)
            && StartsAfresh(RowBefore(times, start), times[start])
            && forall i :: start < i <= k ==> !StartsAfresh(RowBefore(times, i), times[i])
  {
    if !StartsAfresh(RowBefore(times, k), times[k]) {
      RowIsLastRun(times, k - 1);
    }
  }

  /**
   * Failures recorded only while the row is not locked, as logins that do not
   * overlap record them; overlapping ones are the subject of `LoginRuns`.
   */
  ghost predicate Guarded(times: seq<int>) {
    forall i :: 0 <= i < |times| ==> !Locked(RowBefore(times, i), times[i])
  }

  /**
   * Of such failures the count passes the threshold only by a coincidence: all
   * five failures at one instant and the sixth at the very end of the lock.
   */
  lemma {:induction false} GuardedCount(times: seq<int>, k: nat)
    requires Nondecreasing(times) && Guarded(times) && k < |times|
    ensures RowAfter(times, k).failedCount <= FAILED_ATTEMPTS + 1
    ensures RowAfter(times, k).failedCount == FAILED_ATTEMPTS + 1 <==>
            (k > 0 && var row := RowAfter(times, k - 1);
             row.failedCount == FAILED_ATTEMPTS && row.firstFailedAt == row.lastFailedAt
             && times[k] == row.lastFailedAt + DURATION_MS)
  {
    if k > 0 {
      GuardedCount(times, k - 1);
      RowIsLastRun(times, k - 1);
    }
  }

  /** From a count below the threshold, the threshold or a new window comes soon. */
  lemma {:induction false} NextReset(times: seq<int>, i: nat) returns (j: nat)
    requires Nondecreasing(times) && i + 4 < |times|
    requires RowAfter(times, i).failedCount < FAILED_ATTEMPTS
    ensures i < j <= i + 5 - RowAfter(times, i).failedCount
    ensures RowAfter(times, j).failedCount >= FAILED_ATTEMPTS
         || (RowAfter(times, j).failedCount == 1 && times[j] > RowAfter(times, i).firstFailedAt + WINDOW_MS)
  {
    RowIsLastRun(times, i);
    j := i + 1;
    while RowAfter(times, j).failedCount != 1 && RowAfter(times, j).failedCount < FAILED_ATTEMPTS
      invariant i < j <= i + 5 - RowAfter(times, i).failedCount
      invariant RowAfter(times, j - 1).failedCount == RowAfter(times, i).failedCount + (j - 1 - i) < FAILED_ATTEMPTS
      invariant RowAfter(times, j - 1).firstFailedAt == RowAfter(times, i).firstFailedAt
      decreases i + 5 - j
    {
      assert RowAfter(times, j) == AfterFailure(Some(RowAfter(times, j - 1)), times[j]);
      j := j + 1;
    }
    RowIsLastRun(times, j - 1);
  }

  /**
   * The rate limit the counter gives: with no success in between, any ten
   * consecutive failures of that kind span at least fifteen minutes.
   */
  lemma TenFailuresSpanWindow(times: seq<int>, i: nat)
    requires Nondecreasing(times) && Guarded(times) && i + 9 < |times|
    ensures times[i + 9] - times[i] >= WINDOW_MS
  {
    if RowAfter(times, i).failedCount >= FAILED_ATTEMPTS {
      LockSpansWindow(times, i);
    } else {
      RowIsLastRun(times, i);
      var first := NextReset(times, i);
      if RowAfter(times, first).failedCount >= FAILED_ATTEMPTS {
        LockSpansWindow(times, first);
      } else {
        RowIsLastRun(times, first);
        var second := NextReset(times, first);
        if RowAfter(times, second).failedCount >= FAILED_ATTEMPTS { LockSpansWindow(times, second); }
      }
    }
  }

  lemma LockSpansWindow(times: seq<int>, k: nat)
    requires Nondecreasing(times) && Guarded(times) && k + 1 < |times|
    requires RowAfter(times, k).failedCount >= FAILED_ATTEMPTS
    ensures times[k + 1] >= times[k] + DURATION_MS
  {
    RowIsLastRun(times, k);
    assert !Locked(RowBefore(times, k + 1), times[k + 1]);
  }

  /** Five failures at one instant lock, the sixth comes when the lock ends to the millisecond. */
  lemma SixthFailure()
    ensures var times := [0, 0, 0, 0, 0, DURATION_MS];
            Nondecreasing(times) && Guarded(times) && RowAfter(times, 5).failedCount == FAILED_ATTEMPTS + 1
  {
    var times := [0, 0, 0, 0, 0, DURATION_MS];
    assert RowAfter(times, 0) == AttemptRow(1, 0, 0, None);
    assert RowAfter(times, 1) == AttemptRow(2, 0, 0, None);
    assert RowAfter(times, 2) == AttemptRow(3, 0, 0, None);
    assert RowAfter(times, 3) == AttemptRow(4, 0, 0, None);
    assert RowAfter(times, 4) == AttemptRow(5, 0, 0, Some(DURATION_MS));
  }
}
