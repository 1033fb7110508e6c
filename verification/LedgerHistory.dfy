/** How the books may change over time: appending, freezing, retrying, reversing. */
module LedgerHistory {
  import opened Prelude
  import opened Journal
  import opened Money
  import opened Periods
  import opened Ledger
  import opened LedgerRuns

  // ------------------------------------------------------------- append only

  /** The same entry, except that it may since have been reversed. */
  predicate SameButStatus(now: Entry, was: Entry) {
    && now == was.(status := now.status, reversedBy := now.reversedBy)
    && (was.status == Reversed ==> now == was)
  }

  /** Entries keep their position and content, accounts their position and code. */
  ghost predicate Extends(after: Books, before: Books) {
    && |before.entries| <= |after.entries|
    && (forall i :: 0 <= i < |before.entries| ==> SameButStatus(after.entries[i], before.entries[i]))
    && |before.chart| <= |after.chart|
    && (forall i :: 0 <= i < |before.chart| ==> after.chart[i].code == before.chart[i].code)
  }

  lemma ApplyExtends(b: Books, step: Step)
    ensures Extends(Apply(b, step), b)
  {
  }

  lemma {:induction false} RunExtends(b: Books, steps: seq<Step>)
    ensures Extends(Run(b, steps), b)
  {
    if steps != [] {
      var middle := Run(b, steps[..|steps| - 1]);
      RunExtends(b, steps[..|steps| - 1]);
      ApplyExtends(middle, steps[|steps| - 1]);
      forall i | 0 <= i < |b.entries| ensures SameButStatus(Run(b, steps).entries[i], b.entries[i]) {
        assert SameButStatus(middle.entries[i], b.entries[i]);
      }
    }
  }

  // ------------------------------------------------------- frozen periods

  ghost predicate NeverReopens(steps: seq<Step>, year: int, month: int) {
    forall i :: 0 <= i < |steps| ==> !Reopens(steps[i], year, month)
  }

  /** No entry of the month was added: the dates after are the dates before. */
  ghost predicate NothingAdded(after: Books, before: Books, year: int, month: int) {
    && IsClosed(after.periods, year, month)
    && forall i :: |before.entries| <= i < |after.entries| ==> !InMonth(after.entries[i], year, month)
  }

  lemma ApplyFrozen(b: Books, step: Step, year: int, month: int)
    requires IsClosed(b.periods, year, month) && !Reopens(step, year, month)
    ensures NothingAdded(Apply(b, step), b, year, month)
  {
  }

  /**
   * Between a closing and the next reopening of a month, whatever is posted,
   * retried or reversed, its entries are the ones it had, line by line.
   */
  lemma {:induction false} ClosedMonthFrozen(b: Books, steps: seq<Step>, year: int, month: int)
    requires IsClosed(b.periods, year, month) && NeverReopens(steps, year, month)
    ensures Extends(Run(b, steps), b)
    ensures NothingAdded(Run(b, steps), b, year, month)
  {
    RunExtends(b, steps);
    if steps != [] {
      var before := steps[..|steps| - 1];
      var middle := Run(b, before);
      ClosedMonthFrozen(b, before, year, month);
      ApplyFrozen(middle, steps[|steps| - 1], year, month);
      ApplyExtends(middle, steps[|steps| - 1]);
      forall i | |b.entries| <= i < |Run(b, steps).entries|
        ensures !InMonth(Run(b, steps).entries[i], year, month)
      {
        if i < |middle.entries| { assert SameButStatus(Run(b, steps).entries[i], middle.entries[i]); }
      }
    }
  }

  /** The first closing of a month leaves a stamp that no later step rewrites. */
  lemma {:induction false} FirstClosingStays(b: Books, steps: seq<Step>, year: int, month: int)
    requires (year, month) in b.periods && b.periods[(year, month)].closedAt.Some?
    ensures (year, month) in Run(b, steps).periods
    ensures Run(b, steps).periods[(year, month)].closedAt == b.periods[(year, month)].closedAt
  {
    if steps != [] {
      FirstClosingStays(b, steps[..|steps| - 1], year, month);
    }
  }

  // -------------------------------------------------------------- exactly once

  lemma FirstSourceStays(b: Books, steps: seq<Step>, sourceModule: Option<string>, sourceId: Option<string>)
    requires FindSource(b.entries, sourceModule, sourceId) < |b.entries|
    ensures FindSource(Run(b, steps).entries, sourceModule, sourceId) == FindSource(b.entries, sourceModule, sourceId)
  {
    var k := FindSource(b.entries, sourceModule, sourceId);
    var later := Run(b, steps).entries;
    RunExtends(b, steps);
    assert SameButStatus(later[k], b.entries[k]);
    forall i | 0 <= i < k ensures !SameSource(later[i], sourceModule, sourceId) {
      assert SameButStatus(later[i], b.entries[i]);
    }
  }

  /** A receipt names the first entry with the source. */
  lemma ReceiptIsFirst(b: Books, input: EntryInput, number: string)
    requires HasSource(input) && Post(b, input, number).result.Ok?
    ensures var posted := Post(b, input, number).books;
            var k := FindSource(posted.entries, input.sourceModule, input.sourceId);
            k < |posted.entries| && Post(b, input, number).result == Ok(Receipt(k + 1, posted.entries[k].number))
  {
    var posted := Post(b, input, number).books;
    var k := FindSource(posted.entries, input.sourceModule, input.sourceId);
    assert SameSource(posted.entries[Post(b, input, number).result.value.id - 1], input.sourceModule, input.sourceId);
    if k < |b.entries| { assert SameSource(b.entries[k], input.sourceModule, input.sourceId); }
  }

  lemma RetryFinds(b: Books, input: EntryInput, number: string)
    requires HasSource(input) && Acceptable(input.lines)
    ensures var k := FindSource(b.entries, input.sourceModule, input.sourceId);
            k < |b.entries| ==> Post(b, input, number) == Outcome(b, Ok(Receipt(k + 1, b.entries[k].number)))
  {
  }

  /**
   * A retry of a posted source returns the receipt of the first posting and
   * changes nothing, after any run, even once its month is closed.
   */
  lemma RetryReturnsFirst(b: Books, first: EntryInput, n1: string, steps: seq<Step>, retry: EntryInput, n2: string)
    requires HasSource(first) && Post(b, first, n1).result.Ok?
    requires retry.sourceModule == first.sourceModule && retry.sourceId == first.sourceId && Acceptable(retry.lines)
    ensures var later := Run(Post(b, first, n1).books, steps);
            Post(later, retry, n2) == Outcome(later, Post(b, first, n1).result)
  {
    var posted := Post(b, first, n1).books;
    var k := FindSource(posted.entries, first.sourceModule, first.sourceId);
    ReceiptIsFirst(b, first, n1);
    RetryFinds(Run(posted, steps), retry, n2);
    hide Post;
    FirstSourceStays(posted, steps, first.sourceModule, first.sourceId);
    RunExtends(posted, steps);
    assert SameButStatus(Run(posted, steps).entries[k], posted.entries[k]);
  }

  // ----------------------------------------------------------------- reversal

  /** An entry and its reversal cancel for every choice of accounts and tags. */
  lemma ReversalCancels(b: Books, i: nat, pick: Selector)
    requires Sound(b) && i < |b.entries| && b.entries[i].reversedBy.Some?
    ensures i + 1 < b.entries[i].reversedBy.value <= |b.entries|
    ensures Net(b.entries[i].lines, pick) + Net(b.entries[b.entries[i].reversedBy.value - 1].lines, pick) == 0
  {
    assert LinkSound(b.entries, i);
    MirrorCancels(b.entries[b.entries[i].reversedBy.value - 1].lines, b.entries[i].lines, pick);
  }

  /** Two entries never share a reversal. */
  lemma ReversedAtMostOnce(b: Books, i: nat, j: nat)
    requires Sound(b) && i < j < |b.entries|
    requires b.entries[i].reversedBy.Some?
    ensures b.entries[j].reversedBy != b.entries[i].reversedBy
  {
    assert LinkSound(b.entries, i) && LinkSound(b.entries, j);
    if b.entries[j].reversedBy == b.entries[i].reversedBy {
      DecimalTextInjective(i + 1, j + 1);
    }
  }

  /** Number of entries in the chain of reversals that starts at an entry. */
  ghost function ChainLength(b: Books, i: nat): nat
    requires Sound(b) && i < |b.entries|
    decreases |b.entries| - i
  {
    assert LinkSound(b.entries, i);
    if b.entries[i].reversedBy.None? then 1 else 1 + ChainLength(b, b.entries[i].reversedBy.value - 1)
  }

  ghost function ChainNet(b: Books, i: nat, pick: Selector): int
    requires Sound(b) && i < |b.entries|
    decreases |b.entries| - i
  {
    assert LinkSound(b.entries, i);
    Net(b.entries[i].lines, pick)
    + if b.entries[i].reversedBy.None? then 0 else ChainNet(b, b.entries[i].reversedBy.value - 1, pick)
  }

  /** A chain of odd length nets to its head entry, one of even length to nothing. */
  lemma {:induction false} ChainNetsToHead(b: Books, i: nat, pick: Selector)
    requires Sound(b) && i < |b.entries|
    ensures ChainNet(b, i, pick) == if ChainLength(b, i) % 2 == 1 then Net(b.entries[i].lines, pick) else 0
    decreases |b.entries| - i
  {
    assert LinkSound(b.entries, i);
    if b.entries[i].reversedBy.Some? {
      ChainNetsToHead(b, b.entries[i].reversedBy.value - 1, pick);
      ReversalCancels(b, i, pick);
    }
  }

  // ---------------------------------------------------------- whole ledger

  /** Sum of `values[j]` over the positions below `n` that are in a set. */
  ghost function SumOver(values: seq<int>, chosen: set<nat>, n: nat): int
    requires n <= |values|
  {
    if n == 0 then 0 else SumOver(values, chosen, n - 1) + if n - 1 in chosen then values[n - 1] else 0
  }

  lemma {:induction false} SumOverAdd(values: seq<int>, chosen: set<nat>, j: nat, n: nat)
    requires n <= |values| && j !in chosen
    ensures SumOver(values, chosen + {j}, n) == SumOver(values, chosen, n) + if j < n then values[j] else 0
  {
    if n > 0 { SumOverAdd(values, chosen, j, n - 1); }
  }

  lemma {:induction false} SumOverSplit(values: seq<int>, chosen: set<nat>, rest: set<nat>, n: nat)
    requires n <= |values|
    requires forall j :: 0 <= j < n ==> (j in chosen) != (j in rest)
    ensures SumOver(values, chosen, n) + SumOver(values, rest, n) == Total(values[..n])
  {
    if n > 0 {
      SumOverSplit(values, chosen, rest, n - 1);
      assert values[..n][..n - 1] == values[..n - 1];
    }
  }

  function Total(values: seq<int>): int {
    if values == [] then 0 else Total(values[..|values| - 1]) + values[|values| - 1]
  }

  /** Positions that the first `n` entries name as their reversals. */
  ghost function Reversals(b: Books, n: nat): set<nat>
    requires Sound(b) && n <= |b.entries|
  {
    if n == 0 then {}
    else
      assert LinkSound(b.entries, n - 1);
      Reversals(b, n - 1) + if b.entries[n - 1].reversedBy.Some? then {b.entries[n - 1].reversedBy.value - 1} else {}
  }

  lemma {:induction false} ReversalsAreNamed(b: Books, n: nat, r: nat)
    requires Sound(b) && n <= |b.entries|
    ensures r in Reversals(b, n) <==> exists i :: 0 <= i < n && b.entries[i].reversedBy == Some(r + 1)
  {
    if n > 0 {
      ReversalsAreNamed(b, n - 1, r);
      assert LinkSound(b.entries, n - 1);
    }
  }

  ghost function ChainNets(b: Books, pick: Selector): (nets: seq<int>)
    requires Sound(b)
    ensures |nets| == |b.entries|
    ensures forall i :: 0 <= i < |nets| ==> nets[i] == ChainNet(b, i, pick)
  {
    seq(|b.entries|, i requires 0 <= i < |b.entries| => ChainNet(b, i, pick))
  }

  /** Each entry is its chain less the chain of its reversal. */
  lemma {:induction false} EntriesAreChainDifferences(b: Books, pick: Selector, n: nat)
    requires Sound(b) && n <= |b.entries|
    ensures NetOfEntries(b.entries[..n], pick) ==
            Total(ChainNets(b, pick)[..n]) - SumOver(ChainNets(b, pick), Reversals(b, n), |b.entries|)
  {
    hide Sound;
    var nets := ChainNets(b, pick);
    if n == 0 {
      SumOverNone(nets, |b.entries|);
    } else {
      EntriesAreChainDifferences(b, pick, n - 1);
      assert b.entries[..n][..n - 1] == b.entries[..n - 1];
      assert nets[..n][..n - 1] == nets[..n - 1];
      ReversalsGrow(b, pick, n - 1);
    }
  }

  lemma ChainNetStep(b: Books, k: nat, pick: Selector)
    requires Sound(b) && k < |b.entries|
    ensures b.entries[k].reversedBy.None? ==> ChainNet(b, k, pick) == Net(b.entries[k].lines, pick)
    ensures b.entries[k].reversedBy.Some? ==>
              && k + 1 < b.entries[k].reversedBy.value <= |b.entries|
              && ChainNet(b, k, pick) == Net(b.entries[k].lines, pick) + ChainNet(b, b.entries[k].reversedBy.value - 1, pick)
  {
    assert LinkSound(b.entries, k);
  }

  lemma ReversalsGrow(b: Books, pick: Selector, k: nat)
    requires Sound(b) && k < |b.entries|
    ensures var n := |b.entries|; var nets := ChainNets(b, pick);
            SumOver(nets, Reversals(b, k + 1), n) - SumOver(nets, Reversals(b, k), n) ==
            ChainNet(b, k, pick) - Net(b.entries[k].lines, pick)
  {
    hide Sound, ChainNet;
    ChainNetStep(b, k, pick);
    if b.entries[k].reversedBy.Some? {
      var r := b.entries[k].reversedBy.value - 1;
      ReversalsAreNamed(b, k, r);
      if i :| 0 <= i < k && b.entries[i].reversedBy == Some(r + 1) { ReversedAtMostOnce(b, i, k); }
      SumOverAdd(ChainNets(b, pick), Reversals(b, k), r, |b.entries|);
    } else {
      assert Reversals(b, k + 1) == Reversals(b, k);
    }
  }

  lemma {:induction false} SumOverNone(values: seq<int>, n: nat)
    requires n <= |values|
    ensures SumOver(values, {}, n) == 0
  {
    if n > 0 { SumOverNone(values, n - 1); }
  }

  /** Entries that are nobody's reversal. */
  ghost function Heads(b: Books): set<nat>
    requires Sound(b)
  {
    set j: nat | 0 <= j < |b.entries| && j !in Reversals(b, |b.entries|)
  }

  /** What a chain contributes: its head while an even number of reversals follows. */
  ghost function InForce(b: Books, pick: Selector): (nets: seq<int>)
    requires Sound(b)
    ensures |nets| == |b.entries|
  {
    seq(|b.entries|, i requires 0 <= i < |b.entries| =>
      if ChainLength(b, i) % 2 == 1 then Net(b.entries[i].lines, pick) else 0)
  }

  /**
   * Over the whole ledger, whatever was reversed how often, the net of all
   * entries is the net of the chain heads still in force.
   */
  lemma LedgerIsHeadsInForce(b: Books, pick: Selector)
    requires Sound(b)
    ensures NetOfEntries(b.entries, pick) == SumOver(InForce(b, pick), Heads(b), |b.entries|)
  {
    var n := |b.entries|;
    var nets := ChainNets(b, pick);
    EntriesAreChainDifferences(b, pick, n);
    assert b.entries[..n] == b.entries;
    SumOverSplit(nets, Heads(b), Reversals(b, n), n);
    forall i | 0 <= i < n ensures nets[i] == InForce(b, pick)[i] {
      ChainNetsToHead(b, i, pick);
    }
    assert nets == InForce(b, pick);
  }
}
