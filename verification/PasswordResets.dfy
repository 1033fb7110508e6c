/**
 * The record behind a password reset (auth.service.ts): it is read before the
 * transaction that uses it, and the transaction does not look at it again.
 */
module PasswordResets {

  /** Which records were used, and the record each request in flight has read. */
  datatype State = State(used: seq<bool>, readers: map<nat, nat>)

  datatype Step =
    | Find(request: nat, record: nat)
    | Commit(request: nat)

  predicate Enabled(s: State, step: Step) {
    match step
    case Find(request, record) => request !in s.readers && record < |s.used| && !s.used[record]
    case Commit(request) => request in s.readers && s.readers[request] < |s.used|
  }

  function Apply(s: State, step: Step): State {
    if !Enabled(s, step) then s else
    match step
    case Find(request, record) => s.(readers := s.readers[request := record])
    case Commit(request) => State(s.used[s.readers[request] := true], s.readers - {request})
  }

  function Run(s: State, steps: seq<Step>): State {
    if steps == [] then s else Apply(Run(s, steps[..|steps| - 1]), steps[|steps| - 1])
  }

  predicate Uses(s: State, step: Step, record: nat) {
    step.Commit? && Enabled(s, step) && s.readers[step.request] == record
  }

  function TimesUsed(s: State, steps: seq<Step>, record: nat): nat {
    if steps == [] then 0
    else
      var before := steps[..|steps| - 1];
      TimesUsed(s, before, record) + if Uses(Run(s, before), steps[|steps| - 1], record) then 1 else 0
  }

  ghost predicate Held(s: State, record: nat) {
    exists r :: r in s.readers && s.readers[r] == record
  }

  /** No request reads the record while another one holds it. */
  ghost predicate Apart(s: State, steps: seq<Step>, record: nat) {
    if steps == [] then true
    else
      var before, last := steps[..|steps| - 1], steps[|steps| - 1];
      Apart(s, before, record) && !(last.Find? && last.record == record && Held(Run(s, before), record))
  }

  ghost predicate OneHolder(s: State, record: nat) {
    && (forall r, q :: r in s.readers && q in s.readers && s.readers[r] == record && s.readers[q] == record ==> r == q)
    && (Held(s, record) && record < |s.used| ==> !s.used[record])
  }

  /** Unused and free, or held once, the record can be used once more. */
  ghost function Chances(s: State, record: nat): nat {
    if record < |s.used| && !s.used[record] then 1 else 0
  }

  lemma UseSpends(s: State, step: Step, record: nat)
    requires OneHolder(s, record) && !(step.Find? && step.record == record && Held(s, record))
    ensures OneHolder(Apply(s, step), record)
    ensures Chances(Apply(s, step), record) + (if Uses(s, step, record) then 1 else 0) <= Chances(s, record)
  {
    var after := Apply(s, step);
    if Held(after, record) {
      var r :| r in after.readers && after.readers[r] == record;
      if r in s.readers && s.readers[r] == record { assert Held(s, record); }
    }
    if Uses(s, step, record) { assert Held(s, record); }
  }

  /** Requests that do not overlap use a record at most once. */
  lemma {:induction false} UsedOnceApart(s: State, steps: seq<Step>, record: nat)
    requires s.readers == map[] && Apart(s, steps, record)
    ensures OneHolder(Run(s, steps), record)
    ensures TimesUsed(s, steps, record) + Chances(Run(s, steps), record) <= 1
  {
    if steps != [] {
      UsedOnceApart(s, steps[..|steps| - 1], record);
      UseSpends(Run(s, steps[..|steps| - 1]), steps[|steps| - 1], record);
    }
  }

  /** The commit finds the record unused, which it does not check. */
  predicate FindsUnused(s: State, step: Step, record: nat) {
    Uses(s, step, record) ==> !s.used[record]
  }

  predicate AllFindUnused(s: State, steps: seq<Step>, record: nat) {
    if steps == [] then true
    else AllFindUnused(s, steps[..|steps| - 1], record) && FindsUnused(Run(s, steps[..|steps| - 1]), steps[|steps| - 1], record)
  }

  /** A record is used in the tables exactly when some commit used it. */
  lemma {:induction false} UsedByCommits(s: State, steps: seq<Step>, record: nat)
    requires s.readers == map[] && record < |s.used| && !s.used[record]
    ensures |Run(s, steps).used| == |s.used|
    ensures Run(s, steps).used[record] <==> TimesUsed(s, steps, record) > 0
  {
    if steps != [] { UsedByCommits(s, steps[..|steps| - 1], record); }
  }

  /** No request ever holds a record that was used, or missing, from the start. */
  lemma {:induction false} NeverHeld(s: State, steps: seq<Step>, record: nat)
    requires s.readers == map[] && (record < |s.used| ==> s.used[record])
    ensures |Run(s, steps).used| == |s.used| && (record < |s.used| ==> Run(s, steps).used[record])
    ensures !Held(Run(s, steps), record) && TimesUsed(s, steps, record) == 0 && AllFindUnused(s, steps, record)
  {
    if steps != [] {
      NeverHeld(s, steps[..|steps| - 1], record);
    }
  }

  /** A record is used at most once exactly when every commit finds it unused. */
  lemma {:induction false} UsedOnceIff(s: State, steps: seq<Step>, record: nat)
    requires s.readers == map[]
    ensures TimesUsed(s, steps, record) <= 1 <==> AllFindUnused(s, steps, record)
  {
    if record >= |s.used| || s.used[record] {
      NeverHeld(s, steps, record);
    } else if steps != [] {
      UsedOnceIff(s, steps[..|steps| - 1], record);
      UsedByCommits(s, steps[..|steps| - 1], record);
    }
  }

  /** A request that nothing interrupts finds an unused record and uses it. */
  lemma ResetIsRun(used: seq<bool>, record: nat)
    requires record < |used| && !used[record]
    ensures Run(State(used, map[]), [Find(0, record), Commit(0)]) == State(used[record := true], map[])
  {
    var s := State(used, map[]);
    var steps := [Find(0, record), Commit(0)];
    assert steps[..1] == [steps[0]] && steps[..1][..0] == [];
    assert Run(s, steps[..1]) == Apply(Run(s, []), steps[0]);
    assert map[0 := record] - {0} == map[];
  }

  /** Two requests that read the record before either commits both reset the password. */
  lemma UsedTwice()
    ensures TimesUsed(State([false], map[]), [Find(0, 0), Find(1, 0), Commit(0), Commit(1)], 0) == 2
  {
    var s := State([false], map[]);
    var steps := [Find(0, 0), Find(1, 0), Commit(0), Commit(1)];
    assert steps[..3][..2] == steps[..2] && steps[..2][..1] == steps[..1] && steps[..1][..0] == [];
    assert Run(s, steps[..1]) == State([false], map[0 := 0]);
    assert Run(s, steps[..2]) == State([false], map[0 := 0, 1 := 0]);
    assert Run(s, steps[..3]) == State([true], map[1 := 0]);
    assert Run(s, []) == s && TimesUsed(s, [], 0) == 0 && TimesUsed(s, steps[..1], 0) == 0;
    assert TimesUsed(s, steps[..2], 0) == 0 && TimesUsed(s, steps[..3], 0) == 1;
  }
}
