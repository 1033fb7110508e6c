/**
 * One worker's pass over the outbox (accounting-outbox.processor.ts), first as a
 * function of the tables. A pass with no one else active is a run of the state
 * machine, so everything proved of runs holds of it.
 */
module OutboxWorker {
  import opened Prelude
  import O = Outbox
  import P = Payments
  import opened Posting
  import opened Journal
  import opened Ledger
  import opened PaymentSystem

  /** A claimed row as the claim returned it. */
  datatype Event = Event(row: nat, read: O.OutboxRow)

  datatype State = State(desk: P.Desk, books: Books)

  /** What the other event families have their worker post. */
  type Builder = O.OutboxRow -> Option<EntryInput>

  ghost predicate KeepsApart(build: Builder) {
    forall row: O.OutboxRow :: var built := build(row); built.Some? ==> !IsPaymentSource(built.value.sourceModule)
  }

  // ------------------------------------------------------------------- claim

  /** One statement claims the oldest eligible rows and returns them as they are now. */
  function ClaimedRows(rows: seq<O.OutboxRow>, ids: seq<nat>): (after: seq<O.OutboxRow>)
    ensures |after| == |rows|
    ensures forall k :: 0 <= k < |rows| ==> after[k] == if k in ids then O.ClaimedRow(rows[k]) else rows[k]
  {
    seq(|rows|, k requires 0 <= k < |rows| => if k in ids then O.ClaimedRow(rows[k]) else rows[k])
  }

  function Events(rows: seq<O.OutboxRow>, ids: seq<nat>): (events: seq<Event>)
    requires forall i :: 0 <= i < |ids| ==> ids[i] < |rows|
    ensures |events| == |ids|
    ensures forall i :: 0 <= i < |ids| ==> events[i] == Event(ids[i], O.ClaimedRow(rows[ids[i]]))
  {
    seq(|ids|, i requires 0 <= i < |ids| => Event(ids[i], O.ClaimedRow(rows[ids[i]])))
  }

  // ----------------------------------------------------------------- process

  function BuildEntry(d: P.Desk, event: O.OutboxRow, build: Builder): Option<EntryInput> {
    if IsPaymentEvent(event.key.eventType) then LoadEvent(d, event.key.eventType, event.subject) else build(event)
  }

  function Failed(rows: seq<O.OutboxRow>, event: Event, message: string, now: int): seq<O.OutboxRow> {
    O.Apply(rows, O.FailedStep(event.row, event.read.attempts, message, now))
  }

  /** Build, post, note and mark one event; a fault on the way marks it failed. */
  function Process(s: State, event: Event, build: Builder, number: string, now: int): State {
    var input := BuildEntry(s.desk, event.read, build);
    if input.None? then s.(desk := s.desk.(outbox := Failed(s.desk.outbox, event, "no encontrado", now)))
    else
      var outcome := Post(s.books, input.value, number);
      if outcome.result.Err? then s.(desk := s.desk.(outbox := Failed(s.desk.outbox, event, "rechazado", now)))
      else
        var id := outcome.result.value.id;
        var noted := NoteEvent(s.desk, event.read.key.eventType, event.read.subject, id);
        State(noted.(outbox := O.Apply(noted.outbox, O.PostedStep(event.row, id))), outcome.books)
  }

  function ProcessAll(s: State, events: seq<Event>, build: Builder, numbers: nat -> string, clock: nat -> int): State {
    if events == [] then s
    else
      var k := |events| - 1;
      Process(ProcessAll(s, events[..k], build, numbers, clock), events[k], build, numbers(k), clock(k))
  }

  function Pass(s: State, limit: nat, build: Builder, now: int, numbers: nat -> string, clock: nat -> int): State {
    var ids := O.ClaimSet(s.desk.outbox, limit, now);
    ProcessAll(s.(desk := s.desk.(outbox := ClaimedRows(s.desk.outbox, ids))), Events(s.desk.outbox, ids), build, numbers, clock)
  }

  // -------------------------------------------------------- a pass is a run

  lemma {:induction false} RunAppend(s: System, first: seq<Step>, second: seq<Step>)
    ensures Run(s, first + second) == Run(Run(s, first), second)
  {
    if second == [] {
      assert first + second == first;
    } else {
      var all := first + second;
      assert all[..|all| - 1] == first + second[..|second| - 1];
      RunAppend(s, first, second[..|second| - 1]);
    }
  }

  function ClaimSteps(ids: seq<nat>, now: int): (steps: seq<Step>)
    ensures |steps| == |ids|
  {
    seq(|ids|, i requires 0 <= i < |ids| => Claim(ids[i], now, i))
  }

  /** The tasks of the events not yet processed. */
  function Waiting(events: seq<Event>, from: nat): map<nat, Task> {
    map t: nat | from <= t < |events| :: Task(events[t].row, events[t].read, Claimed)
  }

  lemma ClaimOneMore(rows: seq<O.OutboxRow>, ids: seq<nat>, k: nat)
    requires k < |ids| && forall i :: 0 <= i < |ids| ==> ids[i] < |rows|
    requires forall i, j :: 0 <= i < j < |ids| ==> ids[i] < ids[j]
    ensures var before := ClaimedRows(rows, ids[..k]);
            before[ids[k]] == rows[ids[k]] && before[ids[k] := O.ClaimedRow(rows[ids[k]])] == ClaimedRows(rows, ids[..k + 1])
  {
    hide O.ClaimedRow;
    assert ids[k] !in ids[..k];
    assert ids[..k + 1] == ids[..k] + [ids[k]];
  }

  lemma WaitOneMore(rows: seq<O.OutboxRow>, ids: seq<nat>, k: nat)
    requires k < |ids| && forall i :: 0 <= i < |ids| ==> ids[i] < |rows|
    ensures Waiting(Events(rows, ids[..k + 1]), 0) ==
            Waiting(Events(rows, ids[..k]), 0)[k := Task(ids[k], O.ClaimedRow(rows[ids[k]]), Claimed)]
  {
    hide O.ClaimedRow;
  }

  lemma {:induction false} ClaimsRun(s: System, ids: seq<nat>, n: nat, now: int)
    requires s.tasks == map[] && n <= |ids|
    requires forall i :: 0 <= i < |ids| ==> ids[i] < |s.desk.outbox| && O.Eligible(s.desk.outbox[ids[i]], now)
    requires forall i, j :: 0 <= i < j < |ids| ==> ids[i] < ids[j]
    ensures Run(s, ClaimSteps(ids[..n], now)) ==
            SetOutbox(s, ClaimedRows(s.desk.outbox, ids[..n])).(tasks := Waiting(Events(s.desk.outbox, ids[..n]), 0))
  {
    hide Run, Apply, Waiting, ClaimedRows, Events, O.Eligible;
    if n == 0 {
      ClaimsNone(s, ids[..n], now);
    } else {
      ClaimsRun(s, ids, n - 1, now);
      ClaimNext(s, Run(s, ClaimSteps(ids[..n - 1], now)), ids, n - 1, now);
      assert ClaimSteps(ids[..n], now)[..n - 1] == ClaimSteps(ids[..n - 1], now);
      RunLast(s, ClaimSteps(ids[..n], now));
    }
  }

  lemma ClaimsNone(s: System, ids: seq<nat>, now: int)
    requires s.tasks == map[] && ids == []
    ensures Run(s, ClaimSteps(ids, now)) ==
            SetOutbox(s, ClaimedRows(s.desk.outbox, ids)).(tasks := Waiting(Events(s.desk.outbox, ids), 0))
  {
    assert ClaimedRows(s.desk.outbox, ids) == s.desk.outbox;
  }

  lemma ClaimNext(s: System, reached: System, ids: seq<nat>, n: nat, now: int)
    requires n < |ids|
    requires forall i :: 0 <= i < |ids| ==> ids[i] < |s.desk.outbox| && O.Eligible(s.desk.outbox[ids[i]], now)
    requires forall i, j :: 0 <= i < j < |ids| ==> ids[i] < ids[j]
    requires reached ==
             SetOutbox(s, ClaimedRows(s.desk.outbox, ids[..n])).(tasks := Waiting(Events(s.desk.outbox, ids[..n]), 0))
    ensures Apply(reached, Claim(ids[n], now, n)) ==
            SetOutbox(s, ClaimedRows(s.desk.outbox, ids[..n + 1])).(tasks := Waiting(Events(s.desk.outbox, ids[..n + 1]), 0))
  {
    hide O.Eligible, O.ClaimedRow;
    var rows := s.desk.outbox;
    ClaimOneMore(rows, ids, n);
    WaitOneMore(rows, ids, n);
    assert n !in reached.tasks;
    hide Apply, ClaimedRows, Events, Waiting;
    ClaimApplies(reached, ids[n], now, n);
  }

  lemma RunLast(s: System, steps: seq<Step>)
    requires steps != []
    ensures Run(s, steps) == Apply(Run(s, steps[..|steps| - 1]), steps[|steps| - 1])
  {
  }

  lemma ClaimApplies(s: System, row: nat, now: int, task: nat)
    requires Enabled(s, Claim(row, now, task))
    ensures var event := O.ClaimedRow(s.desk.outbox[row]);
            Apply(s, Claim(row, now, task)) ==
            SetOutbox(s, s.desk.outbox[row := event]).(tasks := s.tasks[task := Task(row, event, Claimed)])
  {
  }

  /** The statements of one event, in the order its worker issues them. */
  function EventSteps(s: State, event: Event, task: nat, build: Builder, number: string, now: int): seq<Step> {
    var input := BuildEntry(s.desk, event.read, build);
    var load := if IsPaymentEvent(event.read.key.eventType) then Load(task) else LoadOther(task, build(event.read));
    if input.None? then [load, Fail(task, now)]
    else if Post(s.books, input.value, number).result.Err? then [load, Enter(task, number), Fail(task, now)]
    else [load, Enter(task, number), Note(task), Finish(task)]
  }

  lemma RunTwo(s: System, a: Step, b: Step)
    ensures Run(s, [a, b]) == Apply(Apply(s, a), b)
  {
    assert [a, b][..1] == [a] && [a][..0] == [];
    assert Run(s, [a]) == Apply(Run(s, []), a);
  }

  lemma RunFour(s: System, a: Step, b: Step, c: Step, d: Step)
    ensures Run(s, [a, b, c]) == Apply(Apply(Apply(s, a), b), c)
    ensures Run(s, [a, b, c, d]) == Apply(Apply(Apply(Apply(s, a), b), c), d)
  {
    assert [a, b, c, d][..3] == [a, b, c] && [a, b, c][..2] == [a, b];
    RunTwo(s, a, b);
  }

  lemma EventRun(s: System, event: Event, task: nat, build: Builder, number: string, now: int)
    requires KeepsApart(build)
    requires task in s.tasks && s.tasks[task] == Task(event.row, event.read, Claimed)
    ensures var before := State(s.desk, s.books);
            var after := Process(before, event, build, number, now);
            Run(s, EventSteps(before, event, task, build, number, now)) == System(after.desk, after.books, s.tasks - {task}, s.patches)
  {
    hide Post, LoadEvent, NoteEvent, O.Apply, Run, Apply, Enabled, KeepsApart;
    var before := State(s.desk, s.books);
    var input := BuildEntry(s.desk, event.read, build);
    var load := if IsPaymentEvent(event.read.key.eventType) then Load(task) else LoadOther(task, build(event.read));
    RunTwo(s, load, Fail(task, now));
    RunFour(s, load, Enter(task, number), Fail(task, now), Fail(task, now));
    RunFour(s, load, Enter(task, number), Note(task), Finish(task));
    LoadsEvent(s, event, task, build);
    if input.Some? {
      EntersThenMarks(s, Apply(s, load), event, task, input.value, number, now);
    } else {
      FailsAtOnce(s, event, task, now);
    }
  }

  lemma LoadsEvent(s: System, event: Event, task: nat, build: Builder)
    requires KeepsApart(build) && task in s.tasks && s.tasks[task] == Task(event.row, event.read, Claimed)
    ensures var input := BuildEntry(s.desk, event.read, build);
            var load := if IsPaymentEvent(event.read.key.eventType) then Load(task) else LoadOther(task, build(event.read));
            Apply(s, load) == MoveTask(s, task, if input.Some? then Loaded(input.value) else Broken("no encontrado"))
  {
    hide LoadEvent;
  }

  lemma FailsAtOnce(s: System, event: Event, task: nat, now: int)
    requires task in s.tasks && s.tasks[task] == Task(event.row, event.read, Claimed)
    ensures Apply(MoveTask(s, task, Broken("no encontrado")), Fail(task, now)) ==
            System(s.desk.(outbox := Failed(s.desk.outbox, event, "no encontrado", now)), s.books, s.tasks - {task}, s.patches)
  {
    hide O.Apply;
  }

  lemma EntersThenMarks(s: System, loaded: System, event: Event, task: nat, input: EntryInput, number: string, now: int)
    requires task in s.tasks && s.tasks[task] == Task(event.row, event.read, Claimed)
    requires loaded == MoveTask(s, task, Loaded(input))
    ensures var outcome := Post(s.books, input, number);
            if outcome.result.Err? then
              Apply(Apply(loaded, Enter(task, number)), Fail(task, now)) ==
              System(s.desk.(outbox := Failed(s.desk.outbox, event, "rechazado", now)), s.books, s.tasks - {task}, s.patches)
            else
              var id := outcome.result.value.id;
              var noted := NoteEvent(s.desk, event.read.key.eventType, event.read.subject, id);
              Apply(Apply(Apply(loaded, Enter(task, number)), Note(task)), Finish(task)) ==
              System(noted.(outbox := O.Apply(noted.outbox, O.PostedStep(event.row, id))), outcome.books, s.tasks - {task}, s.patches)
  {
    hide LoadEvent, NoteEvent, O.Apply;
    RefusalKeepsBooks(s.books, input, number);
    hide Post;
  }

  lemma RefusalKeepsBooks(b: Books, input: EntryInput, number: string)
    ensures Post(b, input, number).result.Err? ==> Post(b, input, number).books == b
  {
  }

  function BatchSteps(s: State, events: seq<Event>, build: Builder, numbers: nat -> string, clock: nat -> int): seq<Step> {
    if events == [] then []
    else
      var k := |events| - 1;
      var before := ProcessAll(s, events[..k], build, numbers, clock);
      BatchSteps(s, events[..k], build, numbers, clock) + EventSteps(before, events[k], k, build, numbers(k), clock(k))
  }

  /** One event more, from the state the events before it led to. */
  lemma BatchNext(s: System, reached: System, events: seq<Event>, n: nat, build: Builder, numbers: nat -> string, clock: nat -> int)
    requires KeepsApart(build) && 0 < n <= |events|
    requires var before := State(s.desk, s.books);
             var middle := ProcessAll(before, events[..n - 1], build, numbers, clock);
             && Run(s, BatchSteps(before, events[..n - 1], build, numbers, clock)) == reached
             && reached == System(middle.desk, middle.books, Waiting(events, n - 1), s.patches)
    ensures var before := State(s.desk, s.books);
            var after := ProcessAll(before, events[..n], build, numbers, clock);
            Run(s, BatchSteps(before, events[..n], build, numbers, clock)) == System(after.desk, after.books, Waiting(events, n), s.patches)
  {
    hide KeepsApart, Process, EventSteps, Run, ProcessAll, BatchSteps, Waiting;
    var before := State(s.desk, s.books);
    var middle := ProcessAll(before, events[..n - 1], build, numbers, clock);
    assert events[..n][..n - 1] == events[..n - 1];
    BatchLast(before, events[..n], build, numbers, clock);
    WaitingNext(events, n);
    EventRun(reached, events[n - 1], n - 1, build, numbers(n - 1), clock(n - 1));
    RunAppend(s, BatchSteps(before, events[..n - 1], build, numbers, clock),
              EventSteps(middle, events[n - 1], n - 1, build, numbers(n - 1), clock(n - 1)));
  }

  lemma BatchLast(s: State, events: seq<Event>, build: Builder, numbers: nat -> string, clock: nat -> int)
    requires events != []
    ensures var k := |events| - 1;
            var before := ProcessAll(s, events[..k], build, numbers, clock);
            && ProcessAll(s, events, build, numbers, clock) == Process(before, events[k], build, numbers(k), clock(k))
            && BatchSteps(s, events, build, numbers, clock) ==
               BatchSteps(s, events[..k], build, numbers, clock) + EventSteps(before, events[k], k, build, numbers(k), clock(k))
  {
    hide Process, EventSteps;
  }

  lemma WaitingNext(events: seq<Event>, n: nat)
    requires 0 < n <= |events|
    ensures n - 1 in Waiting(events, n - 1)
    ensures Waiting(events, n - 1)[n - 1] == Task(events[n - 1].row, events[n - 1].read, Claimed)
    ensures Waiting(events, n - 1) - {n - 1} == Waiting(events, n)
  {
  }

  lemma {:induction false} BatchRun(s: System, events: seq<Event>, n: nat, build: Builder, numbers: nat -> string, clock: nat -> int)
    requires KeepsApart(build) && n <= |events| && s.tasks == Waiting(events, 0)
    ensures var before := State(s.desk, s.books);
            var after := ProcessAll(before, events[..n], build, numbers, clock);
            Run(s, BatchSteps(before, events[..n], build, numbers, clock)) == System(after.desk, after.books, Waiting(events, n), s.patches)
  {
    hide KeepsApart, Process, EventSteps, Waiting, Apply;
    if n > 0 {
      BatchRun(s, events, n - 1, build, numbers, clock);
      BatchNext(s, Run(s, BatchSteps(State(s.desk, s.books), events[..n - 1], build, numbers, clock)), events, n, build, numbers, clock);
    }
  }

  function PassSteps(s: State, limit: nat, build: Builder, now: int, numbers: nat -> string, clock: nat -> int): seq<Step> {
    var ids := O.ClaimSet(s.desk.outbox, limit, now);
    var claimed := s.(desk := s.desk.(outbox := ClaimedRows(s.desk.outbox, ids)));
    ClaimSteps(ids, now) + BatchSteps(claimed, Events(s.desk.outbox, ids), build, numbers, clock)
  }

  /** No worker is busy; status changes may be in flight. */
  function Idle(s: State, patches: map<nat, Patch>): System {
    System(s.desk, s.books, map[], patches)
  }

  /** A pass is a run of the state machine from any state in which no worker is busy. */
  lemma PassIsRun(s: State, patches: map<nat, Patch>, limit: nat, build: Builder, now: int, numbers: nat -> string, clock: nat -> int)
    requires KeepsApart(build)
    ensures var after := Pass(s, limit, build, now, numbers, clock);
            Run(Idle(s, patches), PassSteps(s, limit, build, now, numbers, clock)) == Idle(after, patches)
  {
    hide Run, BatchSteps, ProcessAll, KeepsApart, O.ClaimSet;
    var ids := O.ClaimSet(s.desk.outbox, limit, now);
    O.ClaimIsOldestFirst(s.desk.outbox, limit, now);
    var idle := Idle(s, patches);
    var events := Events(s.desk.outbox, ids);
    var claimed := s.(desk := s.desk.(outbox := ClaimedRows(s.desk.outbox, ids)));
    ClaimsRun(idle, ids, |ids|, now);
    assert ids[..|ids|] == ids;
    var batch := BatchSteps(claimed, events, build, numbers, clock);
    BatchRun(Idle(claimed, patches).(tasks := Waiting(events, 0)), events, |events|, build, numbers, clock);
    assert events[..|events|] == events;
    assert Waiting(events, |events|) == map[];
    RunAppend(idle, ClaimSteps(ids, now), batch);
  }

  // -------------------------------------------------- what a pass leaves behind

  /** Processing one event settles its row and touches the status of no other. */
  lemma ProcessSettles(s: State, event: Event, build: Builder, number: string, now: int)
    requires event.row < |s.desk.outbox|
    ensures var rows, after := s.desk.outbox, Process(s, event, build, number, now).desk.outbox;
            && |after| == |rows|
            && (forall k :: 0 <= k < |rows| && k != event.row ==> after[k] == rows[k])
            && Settles(after[event.row])
  {
    hide Post, LoadEvent;
  }

  /** Posted with its entry and no retry, or failed with its error and a retry time. */
  predicate Settles(row: O.OutboxRow) {
    || (row.status == O.RowPosted && row.journalEntryId.Some? && row.lastError.None? && row.nextRetryAt.None?)
    || (row.status == O.RowFailed && row.lastError.Some? && row.nextRetryAt.Some?)
  }

  lemma {:induction false} AllSettled(s: State, events: seq<Event>, build: Builder, numbers: nat -> string, clock: nat -> int)
    requires forall i :: 0 <= i < |events| ==> events[i].row < |s.desk.outbox|
    ensures var rows, after := s.desk.outbox, ProcessAll(s, events, build, numbers, clock).desk.outbox;
            && |after| == |rows|
            && (forall k :: 0 <= k < |rows| && after[k] != rows[k] ==> Settles(after[k]))
            && (forall k :: 0 <= k < |rows| && (forall i :: 0 <= i < |events| ==> events[i].row != k) ==> after[k] == rows[k])
            && (forall i :: 0 <= i < |events| ==> Settles(after[events[i].row]))
  {
    hide Process;
    if events != [] {
      var k := |events| - 1;
      AllSettled(s, events[..k], build, numbers, clock);
      ProcessSettles(ProcessAll(s, events[..k], build, numbers, clock), events[k], build, numbers(k), clock(k));
    }
  }

  /** A pass leaves no row it claimed in processing, and no row it did not claim changed. */
  lemma PassSettles(s: State, limit: nat, build: Builder, now: int, numbers: nat -> string, clock: nat -> int)
    ensures var rows, after := s.desk.outbox, Pass(s, limit, build, now, numbers, clock).desk.outbox;
            var ids := O.ClaimSet(rows, limit, now);
            && |after| == |rows|
            && forall k :: 0 <= k < |rows| ==> if k in ids then Settles(after[k]) else after[k] == rows[k]
  {
    var rows := s.desk.outbox;
    var ids := O.ClaimSet(rows, limit, now);
    var events := Events(rows, ids);
    var claimed := s.(desk := s.desk.(outbox := ClaimedRows(rows, ids)));
    AllSettled(claimed, events, build, numbers, clock);
    forall k | 0 <= k < |rows| && k in ids ensures Settles(Pass(s, limit, build, now, numbers, clock).desk.outbox[k]) {
      var i :| 0 <= i < |ids| && ids[i] == k;
      assert events[i].row == k;
    }
  }

  /** Processing an event leaves the attempts its claim counted. */
  lemma {:induction false} AttemptsKept(s: State, events: seq<Event>, build: Builder, numbers: nat -> string, clock: nat -> int)
    requires forall i :: 0 <= i < |events| ==> events[i].row < |s.desk.outbox|
    ensures var rows, after := s.desk.outbox, ProcessAll(s, events, build, numbers, clock).desk.outbox;
            |after| == |rows| && forall k :: 0 <= k < |rows| ==> after[k].attempts == rows[k].attempts
  {
    if events != [] {
      var k := |events| - 1;
      AttemptsKept(s, events[..k], build, numbers, clock);
      OneAttempt(ProcessAll(s, events[..k], build, numbers, clock), events[k], build, numbers(k), clock(k));
      hide Process;
    }
  }

  lemma OneAttempt(s: State, event: Event, build: Builder, number: string, now: int)
    requires event.row < |s.desk.outbox|
    ensures var rows, after := s.desk.outbox, Process(s, event, build, number, now).desk.outbox;
            |after| == |rows| && forall k :: 0 <= k < |rows| ==> after[k].attempts == rows[k].attempts
  {
    hide Post, LoadEvent;
  }

  /**
   * A pass takes every pending or failed row that is due while its limit has
   * room, leaves it posted or failed with one attempt more, and takes no other.
   */
  lemma PassTakesDue(s: State, limit: nat, build: Builder, now: int, numbers: nat -> string, clock: nat -> int)
    ensures var rows, after := s.desk.outbox, Pass(s, limit, build, now, numbers, clock).desk.outbox;
            && |after| == |rows|
            && |O.ClaimSet(rows, limit, now)| == Min(limit, O.DueCount(rows, now))
            && forall k :: 0 <= k < |rows| ==>
                 if (rows[k].status == O.RowPending || rows[k].status == O.RowFailed)
                    && (rows[k].nextRetryAt.None? || rows[k].nextRetryAt.value <= now)
                    && O.DueCount(rows[..k], now) < limit
                 then Settles(after[k]) && after[k].attempts == rows[k].attempts + 1
                 else after[k] == rows[k]
  {
    var rows := s.desk.outbox;
    var ids := O.ClaimSet(rows, limit, now);
    O.ClaimedNumber(rows, limit, now);
    PassSettles(s, limit, build, now, numbers, clock);
    AttemptsKept(s.(desk := s.desk.(outbox := ClaimedRows(rows, ids))), Events(rows, ids), build, numbers, clock);
    forall k | 0 <= k < |rows|
      ensures k in ids <==> (rows[k].status == O.RowPending || rows[k].status == O.RowFailed)
                            && (rows[k].nextRetryAt.None? || rows[k].nextRetryAt.value <= now)
                            && O.DueCount(rows[..k], now) < limit
    {
      O.ClaimedIff(rows, limit, now, k);
    }
    hide O.DueCount, O.ClaimSet, ProcessAll;
  }
}
