/**
 * Logins in flight (auth.service.ts): the guard, the check of the password and
 * the record of its outcome are separate statements, so several logins of one key
 * may have passed the guard before the first of them is recorded.
 */
module LoginRuns {
  import opened Prelude
  import opened LoginLockout

  /** A login that passed the guard, and the number of steps taken by then. */
  datatype Attempt = Attempt(key: Key, passed: nat)

  /** `written` is the number of steps taken when the row of a key was last written. */
  datatype Desk = Desk(rows: map<Key, AttemptRow>, waiting: map<nat, Attempt>, clock: int, ticks: nat, written: map<Key, nat>)

  datatype Step =
    | Pass(request: nat, key: Key, time: int)
    | Fail(request: nat, time: int)
    | Succeed(request: nat, time: int)
    | Abandon(request: nat, time: int)
    | Clear(key: Key, time: int)

  predicate Enabled(s: Desk, step: Step) {
    && step.time >= s.clock
    && match step
       case Pass(request, key, time) => request !in s.waiting && !Locked(RowAt(s.rows, key), time)
       case Clear(_, _) => true
       case _ => step.request in s.waiting
  }

  function Tick(s: Desk, time: int): Desk {
    s.(clock := time, ticks := s.ticks + 1)
  }

  function Write(s: Desk, key: Key, rows: map<Key, AttemptRow>): Desk {
    s.(rows := rows, written := s.written[key := s.ticks])
  }

  /** A second factor that succeeds clears the row without passing the guard again. */
  function Apply(s: Desk, step: Step): Desk {
    if !Enabled(s, step) then s else
    var t := Tick(s, step.time);
    match step
    case Pass(request, key, _) => t.(waiting := s.waiting[request := Attempt(key, t.ticks)])
    case Fail(request, time) =>
      var key := s.waiting[request].key;
      Write(t, key, s.rows[key := AfterFailure(RowAt(s.rows, key), time)]).(waiting := s.waiting - {request})
    case Succeed(request, _) =>
      var key := s.waiting[request].key;
      Write(t, key, s.rows - {key}).(waiting := s.waiting - {request})
    case Abandon(request, _) => t.(waiting := s.waiting - {request})
    case Clear(key, _) => Write(t, key, s.rows - {key})
  }

  function Run(s: Desk, steps: seq<Step>): Desk {
    if steps == [] then s else Apply(Run(s, steps[..|steps| - 1]), steps[|steps| - 1])
  }

  ghost predicate Initial(s: Desk) {
    s.rows == map[] && s.waiting == map[] && s.written == map[]
  }

  /** The step records a failure of the key. */
  predicate Records(s: Desk, step: Step, key: Key) {
    step.Fail? && Enabled(s, step) && s.waiting[step.request].key == key
  }

  // -------------------------------------------------------------- invariant

  /** A row reads as failures that lie in the past. */
  predicate RowSound(row: AttemptRow, clock: int) {
    && row.firstFailedAt <= row.lastFailedAt <= clock
    && row.lockedUntil == if row.failedCount >= FAILED_ATTEMPTS then Some(row.lastFailedAt + DURATION_MS) else None
  }

  /** A row nobody wrote since an attempt passed does not lock it out now. */
  predicate AttemptSound(s: Desk, a: Attempt) {
    && a.passed <= s.ticks
    && ((a.key !in s.written || s.written[a.key] <= a.passed) ==> !Locked(RowAt(s.rows, a.key), s.clock))
  }

  ghost predicate Sound(s: Desk) {
    && (forall key :: key in s.rows ==> RowSound(s.rows[key], s.clock))
    && (forall key :: key in s.written ==> s.written[key] <= s.ticks)
    && (forall r :: r in s.waiting ==> AttemptSound(s, s.waiting[r]))
  }

  lemma ApplySound(s: Desk, step: Step)
    requires Sound(s)
    ensures Sound(Apply(s, step))
  {
  }

  lemma {:induction false} RunSound(s: Desk, steps: seq<Step>)
    requires Sound(s)
    ensures Sound(Run(s, steps)) && Run(s, steps).clock >= s.clock
  {
    if steps != [] {
      RunSound(s, steps[..|steps| - 1]);
      ApplySound(Run(s, steps[..|steps| - 1]), steps[|steps| - 1]);
    }
  }

  /**
   * In every run: while the lock of a row lies in the future, exactly the attempts
   * that passed the guard before that lock was set record a failure.
   */
  lemma RecordedWhileLockedIff(s: Desk, steps: seq<Step>, request: nat, time: int)
    requires Initial(s)
    requires var now := Run(s, steps); request in now.waiting && time >= now.clock
    ensures var now := Run(s, steps); var a := now.waiting[request]; var row := RowAt(now.rows, a.key);
            Locked(row, time) <==>
            && row.Some? && row.value.lockedUntil.Some? && time < row.value.lockedUntil.value
            && a.key in now.written && a.passed < now.written[a.key]
  {
    RunSound(s, steps);
    assert AttemptSound(Run(s, steps), Run(s, steps).waiting[request]);
  }

  // ----------------------------------------------------- attempts in flight

  function InFlight(s: Desk, key: Key): set<nat> {
    set r | r in s.waiting && s.waiting[r].key == key
  }

  /**
   * What happened since the lock of a key was first set: how many attempts were
   * in flight at that moment, and how many passed at the very end of a lock.
   */
  datatype Since = NotLocked | LockSet(inFlight: nat, atEnd: nat)

  function SinceAfter(s: Desk, since: Since, step: Step, key: Key): Since {
    if !Enabled(s, step) then since else
    match step
    case Pass(_, k, time) =>
      if k == key && since.LockSet? && key in s.rows && s.rows[key].lockedUntil == Some(time)
      then LockSet(since.inFlight, since.atEnd + 1) else since
    case Fail(request, time) =>
      var row := RowAt(s.rows, key);
      if s.waiting[request].key != key then since
      else if AfterFailure(row, time).failedCount < FAILED_ATTEMPTS then NotLocked
      else if since.LockSet? then since
      else LockSet(|InFlight(Apply(s, step), key)|, 0)
    case Succeed(request, _) => if s.waiting[request].key == key then NotLocked else since
    case Clear(k, _) => if k == key then NotLocked else since
    case Abandon(_, _) => since
  }

  function SinceLock(s: Desk, steps: seq<Step>, key: Key): Since {
    if steps == [] then NotLocked
    else SinceAfter(Run(s, steps[..|steps| - 1]), SinceLock(s, steps[..|steps| - 1], key), steps[|steps| - 1], key)
  }

  /** The failures of the row fill exactly the window. */
  predicate SpansWindow(row: AttemptRow) {
    row.lastFailedAt == row.firstFailedAt + WINDOW_MS
  }

  /** The count and the attempts that can still raise it, against what the lock found. */
  ghost predicate Bounded(s: Desk, since: Since, key: Key) {
    match since
    case NotLocked => key in s.rows ==> s.rows[key].failedCount < FAILED_ATTEMPTS
    case LockSet(inFlight, atEnd) =>
      && key in s.rows
      && var row := s.rows[key]; var bound := FAILED_ATTEMPTS + inFlight + atEnd;
         (&& FAILED_ATTEMPTS <= row.failedCount <= bound
          && (s.clock <= row.lastFailedAt + DURATION_MS ==> row.failedCount + |InFlight(s, key)| <= bound)
          && (atEnd > 0 ==> row.lastFailedAt + DURATION_MS <= s.clock || SpansWindow(row))
          && (row.failedCount > FAILED_ATTEMPTS + inFlight ==> SpansWindow(row)))
  }

  lemma FlightMoves(s: Desk, step: Step, key: Key)
    requires Enabled(s, step)
    ensures var before, after := InFlight(s, key), InFlight(Apply(s, step), key);
            match step
            case Pass(request, k, _) => after == if k == key then before + {request} else before
            case Clear(_, _) => after == before
            case _ => after == before - {step.request}
  {
    hide AfterFailure, Locked;
  }

  /** A failure that is counted on at the end of a lock fills the window. */
  lemma CountedOn(row: AttemptRow, clock: int, time: int)
    requires RowSound(row, clock) && clock <= time && row.failedCount >= FAILED_ATTEMPTS && !StartsAfresh(Some(row), time)
    ensures time <= row.lastFailedAt + DURATION_MS
    ensures row.lastFailedAt + DURATION_MS <= clock || SpansWindow(row) ==> SpansWindow(AfterFailure(Some(row), time))
  {
  }

  lemma FailBounded(s: Desk, since: Since, request: nat, time: int, key: Key)
    requires Sound(s) && Bounded(s, since, key) && Records(s, Fail(request, time), key)
    ensures Bounded(Apply(s, Fail(request, time)), SinceAfter(s, since, Fail(request, time), key), key)
  {
    var step := Fail(request, time);
    FlightMoves(s, step, key);
    assert request in InFlight(s, key);
    assert |InFlight(Apply(s, step), key)| == |InFlight(s, key)| - 1;
    if since.LockSet? && !StartsAfresh(RowAt(s.rows, key), time) {
      CountedOn(s.rows[key], s.clock, time);
    }
  }

  lemma ApplyBounded(s: Desk, since: Since, step: Step, key: Key)
    requires Sound(s) && Bounded(s, since, key)
    ensures Bounded(Apply(s, step), SinceAfter(s, since, step, key), key)
  {
    if Enabled(s, step) {
      if Records(s, step, key) {
        FailBounded(s, since, step.request, step.time, key);
      } else {
        FlightMoves(s, step, key);
      }
    }
  }

  /**
   * In every run the count of a key is at most the threshold plus the attempts in
   * flight when the lock was set plus those that passed at the very end of a
   * lock; and these last raise it only when the failures fill exactly the window.
   */
  lemma {:induction false} CountInFlight(s: Desk, steps: seq<Step>, key: Key)
    requires Initial(s)
    ensures Bounded(Run(s, steps), SinceLock(s, steps, key), key)
  {
    if steps != [] {
      CountInFlight(s, steps[..|steps| - 1], key);
      RunSound(s, steps[..|steps| - 1]);
      ApplyBounded(Run(s, steps[..|steps| - 1]), SinceLock(s, steps[..|steps| - 1], key), steps[|steps| - 1], key);
    }
  }

  // ------------------------------------------- attempts that do not overlap

  /** What a step records. */
  function Recorded(s: Desk, step: Step): seq<Event> {
    if !Enabled(s, step) then []
    else
      match step
      case Fail(request, time) => [Failure(s.waiting[request].key, time)]
      case Succeed(request, time) => [Success(s.waiting[request].key, time)]
      case Clear(key, time) => [Success(key, time)]
      case _ => []
  }

  function EventsOf(s: Desk, steps: seq<Step>): seq<Event> {
    if steps == [] then []
    else EventsOf(s, steps[..|steps| - 1]) + Recorded(Run(s, steps[..|steps| - 1]), steps[|steps| - 1])
  }

  /** The rows are those of the recorded history. */
  lemma {:induction false} RowsAreHistory(s: Desk, steps: seq<Step>)
    requires Initial(s)
    ensures Run(s, steps).rows == LoginLockout.Run(EventsOf(s, steps))
  {
    if steps != [] {
      var before, events := Run(s, steps[..|steps| - 1]), EventsOf(s, steps[..|steps| - 1]);
      RowsAreHistory(s, steps[..|steps| - 1]);
      var recorded := Recorded(before, steps[|steps| - 1]);
      assert events + [] == events;
      if recorded != [] { assert (events + recorded)[..|events|] == events; }
    }
  }

  /** The failure is recorded on the row its guard saw. */
  predicate Undisturbed(s: Desk, step: Step, key: Key) {
    Records(s, step, key) && key in s.written ==> s.written[key] <= s.waiting[step.request].passed
  }

  predicate AllUndisturbed(s: Desk, steps: seq<Step>, key: Key) {
    if steps == [] then true
    else AllUndisturbed(s, steps[..|steps| - 1], key) && Undisturbed(Run(s, steps[..|steps| - 1]), steps[|steps| - 1], key)
  }

  /** Failure times of a key since its last success. */
  function FailureTimes(s: Desk, steps: seq<Step>, key: Key): seq<int> {
    Failures(EventsOf(s, steps), key)
  }

  lemma FailuresGrow(s: Desk, steps: seq<Step>, key: Key)
    requires steps != []
    ensures var before, last := Run(s, steps[..|steps| - 1]), steps[|steps| - 1];
            var times, now := FailureTimes(s, steps[..|steps| - 1], key), FailureTimes(s, steps, key);
            if Records(before, last, key) then now == times + [last.time] else now == times || now == []
  {
    var events := EventsOf(s, steps[..|steps| - 1]);
    var recorded := Recorded(Run(s, steps[..|steps| - 1]), steps[|steps| - 1]);
    assert events + [] == events;
    if recorded != [] { assert (events + recorded)[..|events|] == events; }
  }

  lemma Extended(times: seq<int>, time: int)
    requires Nondecreasing(times) && Guarded(times) && (times != [] ==> times[|times| - 1] <= time)
    requires !Locked(RowBefore(times, |times|), time)
    ensures Nondecreasing(times + [time]) && Guarded(times + [time])
  {
    var all := times + [time];
    forall i | 0 <= i < |all| ensures !Locked(RowBefore(all, i), all[i]) {
      if i > 0 { RowOfPrefix(times, [time], i - 1); }
    }
  }

  /**
   * When no write to the key's row lies between a guard and its record, failures
   * are recorded only while the row is not locked, in the order of time.
   */
  lemma {:induction false} UndisturbedIsGuarded(s: Desk, steps: seq<Step>, key: Key)
    requires Initial(s) && AllUndisturbed(s, steps, key)
    ensures Guarded(FailureTimes(s, steps, key)) && Nondecreasing(FailureTimes(s, steps, key))
    ensures forall t :: t in FailureTimes(s, steps, key) ==> t <= Run(s, steps).clock
  {
    if steps != [] {
      var before, last := Run(s, steps[..|steps| - 1]), steps[|steps| - 1];
      UndisturbedIsGuarded(s, steps[..|steps| - 1], key);
      FailuresGrow(s, steps, key);
      if Records(before, last, key) {
        var times := FailureTimes(s, steps[..|steps| - 1], key);
        RowsAreHistory(s, steps[..|steps| - 1]);
        RowEqualsHistory(EventsOf(s, steps[..|steps| - 1]), key);
        RecordedWhileLockedIff(s, steps[..|steps| - 1], last.request, last.time);
        if times != [] { assert times[|times| - 1] in times; }
        Extended(times, last.time);
      }
    }
  }

  /** Without overlap the count passes the threshold by one at most. */
  lemma UndisturbedCount(s: Desk, steps: seq<Step>, key: Key)
    requires Initial(s) && AllUndisturbed(s, steps, key)
    ensures key in Run(s, steps).rows ==> Run(s, steps).rows[key].failedCount <= FAILED_ATTEMPTS + 1
  {
    var times := FailureTimes(s, steps, key);
    UndisturbedIsGuarded(s, steps, key);
    RowsAreHistory(s, steps);
    RowEqualsHistory(EventsOf(s, steps), key);
    if key in Run(s, steps).rows { GuardedCount(times, |times| - 1); }
  }

  /** Without overlap any ten consecutive failures of a key span the window. */
  lemma UndisturbedRateLimit(s: Desk, steps: seq<Step>, key: Key, i: nat)
    requires Initial(s) && AllUndisturbed(s, steps, key)
    ensures var times := FailureTimes(s, steps, key); i + 9 < |times| ==> times[i + 9] - times[i] >= WINDOW_MS
  {
    UndisturbedIsGuarded(s, steps, key);
    if i + 9 < |FailureTimes(s, steps, key)| { TenFailuresSpanWindow(FailureTimes(s, steps, key), i); }
  }

  // -------------------------------------------------- many at one moment

  const EMPTY := Desk(map[], map[], 0, 0, map[])

  /** `n` logins of a key pass the guard at time 0. */
  function Passes(n: nat, key: Key): (steps: seq<Step>)
    ensures |steps| == n
  {
    if n == 0 then [] else Passes(n - 1, key) + [Pass(n - 1, key, 0)]
  }

  /** Their failures, a millisecond apart. */
  function Fails(n: nat): (steps: seq<Step>)
    ensures |steps| == n
  {
    if n == 0 then [] else Fails(n - 1) + [Fail(n - 1, n - 1)]
  }

  lemma {:induction false} RunAppend(s: Desk, first: seq<Step>, second: seq<Step>)
    ensures Run(s, first + second) == Run(Run(s, first), second)
  {
    if second == [] {
      assert first + second == first;
    } else {
      var all := first + second;
      assert all[..|all| - 1] == first + second[..|second| - 1];
      RunAppend(s, first, second[..|second| - 1]);
    }
  }

  lemma {:induction false} AllPass(n: nat, key: Key)
    ensures var s := Run(EMPTY, Passes(n, key));
            && s.rows == map[] && s.clock == 0
            && (forall r :: r in s.waiting <==> 0 <= r < n)
            && forall r :: r in s.waiting ==> s.waiting[r].key == key
  {
    if n > 0 {
      AllPass(n - 1, key);
      assert Passes(n, key)[..n - 1] == Passes(n - 1, key);
    }
  }

  /** Each of them raises the count, also after the fifth has locked the row. */
  lemma {:induction false} AllFail(s: Desk, n: nat, limit: nat, key: Key)
    requires n <= limit <= WINDOW_MS + 1 && s.rows == map[] && s.clock == 0
    requires forall r :: 0 <= r < limit ==> r in s.waiting && s.waiting[r].key == key
    ensures var after := Run(s, Fails(n));
            && after.clock == (if n == 0 then 0 else n - 1)
            && (forall r :: n <= r < limit ==> r in after.waiting && after.waiting[r].key == key)
            && RowAt(after.rows, key) ==
               if n == 0 then None
               else Some(AttemptRow(n, 0, n - 1, if n >= FAILED_ATTEMPTS then Some(n - 1 + DURATION_MS) else None))
  {
    if n > 0 {
      AllFail(s, n - 1, limit, key);
      assert Fails(n)[..n - 1] == Fails(n - 1);
    }
  }

  /**
   * Any number of logins that pass the guard together are all counted, whatever
   * the threshold, when their failures are a millisecond apart and fit the window.
   */
  lemma AllAtOnce(n: nat, key: Key)
    requires 0 < n <= WINDOW_MS + 1
    ensures Initial(EMPTY)
    ensures var after := Run(EMPTY, Passes(n, key) + Fails(n));
            && key in after.rows && after.rows[key].failedCount == n
            && after.rows[key].lastFailedAt - after.rows[key].firstFailedAt == n - 1
  {
    AllPass(n, key);
    RunAppend(EMPTY, Passes(n, key), Fails(n));
    AllFail(Run(EMPTY, Passes(n, key)), n, n, key);
  }
}
