/** What every sequence of ledger operations keeps. */
module LedgerRuns {
  import opened Prelude
  import opened Journal
  import opened Money
  import opened Periods
  import opened Ledger

  datatype Step =
    | PostStep(entry: EntryInput, number: string)
    | ReverseStep(reversal: ReverseInput, number: string)
    | CloseStep(year: int, month: int, now: int, closedBy: Option<int>)
    | ReopenStep(year: int, month: int, now: int, reopenedBy: int, reason: string)
    | AddAccount(account: Account)
    | SetActive(position: nat, active: bool)

  function Apply(b: Books, step: Step): Books {
    match step
    case PostStep(input, number) => Post(b, input, number).books
    case ReverseStep(input, number) => Reverse(b, input, number).books
    case CloseStep(y, m, now, actor) =>
      if ValidYearMonth(y, m) then b.(periods := b.periods[(y, m) := ClosedRow(PeriodAt(b.periods, y, m), now, actor)]) else b
    case ReopenStep(y, m, now, actor, reason) =>
      if Reopens(step, y, m) then b.(periods := b.periods[(y, m) := ReopenedRow(PeriodAt(b.periods, y, m), now, actor, Trim(reason))]) else b
    case AddAccount(account) =>
      if exists i :: 0 <= i < |b.chart| && b.chart[i].code == account.code then b else b.(chart := b.chart + [account])
    case SetActive(k, active) =>
      if k < |b.chart| then b.(chart := b.chart[k := b.chart[k].(active := active)]) else b
  }

  /** A reopening of this month that its validation lets through. */
  predicate Reopens(step: Step, year: int, month: int) {
    step.ReopenStep? && step.year == year && step.month == month && ValidYearMonth(year, month) && !Blank(step.reason)
  }

  function Run(b: Books, steps: seq<Step>): Books {
    if steps == [] then b else Apply(Run(b, steps[..|steps| - 1]), steps[|steps| - 1])
  }

  // ------------------------------------------------------------- invariants

  ghost predicate EntrySound(b: Books, e: Entry) {
    && Balanced(e.lines)
    && (forall j :: 0 <= j < |e.lines| ==> e.lines[j].account < |b.chart|)
    && Exists(e.date) && ValidYearMonth(e.date.year, e.date.month)
  }

  /** A reversed entry names a later entry that mirrors it; a posted one names none. */
  ghost predicate LinkSound(entries: seq<Entry>, i: nat)
    requires i < |entries|
  {
    match entries[i].reversedBy
    case None => entries[i].status == Posted
    case Some(id) =>
      && entries[i].status == Reversed
      && i + 1 < id <= |entries|
      && SameSource(entries[id - 1], Some(REVERSAL), Some(DecimalText(i + 1)))
      && MirrorsAll(entries[id - 1].lines, entries[i].lines)
  }

  ghost predicate SourcesUnique(entries: seq<Entry>) {
    forall i, j :: 0 <= i < j < |entries| ==> !SameSource(entries[j], entries[i].sourceModule, entries[i].sourceId)
  }

  ghost predicate Sound(b: Books) {
    && (forall i :: 0 <= i < |b.entries| ==> EntrySound(b, b.entries[i]))
    && (forall i :: 0 <= i < |b.entries| ==> LinkSound(b.entries, i))
    && SourcesUnique(b.entries)
    && (forall i, j :: 0 <= i < j < |b.chart| ==> b.chart[i].code != b.chart[j].code)
  }

  /** What was validated is what is stored: the cents of the input are the cents of the lines. */
  lemma {:induction false} StoredTotals(chart: seq<Account>, lines: seq<LineInput>)
    requires forall i :: 0 <= i < |lines| ==> Known(chart, lines[i].accountCode) && LineAcceptable(lines[i])
    ensures Debits(StoredLines(chart, lines)) == DebitCents(lines)
    ensures Credits(StoredLines(chart, lines)) == CreditCents(lines)
  {
    if lines != [] {
      var before := lines[..|lines| - 1];
      StoredTotals(chart, before);
      assert StoredLines(chart, lines)[..|before|] == StoredLines(chart, before);
    }
  }

  lemma NewEntrySound(b: Books, input: EntryInput, number: string)
    requires InsertFault(b, input.entryDate, input.sourceModule, input.sourceId).None?
    requires Acceptable(input.lines)
    requires forall i :: 0 <= i < |input.lines| ==> Known(b.chart, input.lines[i].accountCode)
    ensures EntrySound(b, NewEntry(b.chart, input, number))
  {
    var e := NewEntry(b.chart, input, number);
    StoredTotals(b.chart, input.lines);
    forall i | 0 <= i < |e.lines| ensures OneSided(e.lines[i]) && e.lines[i].account < |b.chart| {
      assert e.lines[i] == Stored(b.chart, input.lines[i]);
      NonNegativeCents(input.lines[i].debit);
      NonNegativeCents(input.lines[i].credit);
    }
  }

  /** A stored line is on the active account its code names and keeps amounts, tags and memo. */
  predicate HoldsLine(chart: seq<Account>, line: Line, input: LineInput) {
    && line.account < |chart| && chart[line.account].code == input.accountCode && chart[line.account].active
    && line.debit == ToCents(input.debit) && line.credit == ToCents(input.credit)
    && line.tags == input.tags && line.memo == input.memo
  }

  /** The entry says what the input said, its date to the digit. */
  ghost predicate Holds(chart: seq<Account>, e: Entry, input: EntryInput) {
    && Exists(e.date) && Prints(e.date, input.entryDate)
    && e.description == input.description && e.sourceModule == input.sourceModule && e.sourceId == input.sourceId
    && e.basis == input.basis && e.status == Posted && e.reversedBy == None
    && |e.lines| == |input.lines|
    && forall i :: 0 <= i < |e.lines| ==> HoldsLine(chart, e.lines[i], input.lines[i])
  }

  /** A posting adds the entry it was given, in an open month, or nothing. */
  lemma PostHolds(b: Books, input: EntryInput, number: string)
    ensures var after := Post(b, input, number).books;
            after == b
            || (&& |after.entries| == |b.entries| + 1 && after == b.(entries := b.entries + [after.entries[|b.entries|]])
                && after.entries[|b.entries|].number == number
                && Holds(b.chart, after.entries[|b.entries|], input)
                && var d := after.entries[|b.entries|].date;
                   2000 <= d.year <= 2100 && ((d.year, d.month) in b.periods ==> b.periods[(d.year, d.month)].status == Open))
  {
    var after := Post(b, input, number).books;
    if after != b {
      DateReadsPrint(input.entryDate);
      assert after.entries == b.entries + [NewEntry(b.chart, input, number)];
      hide Exists, Prints, ReadCivil, FindSource;
      forall i | 0 <= i < |input.lines| ensures HoldsLine(b.chart, Stored(b.chart, input.lines[i]), input.lines[i]) {}
    }
  }

  /** A reversal adds the mirrored entry at the date it was given and marks the original, or changes nothing. */
  lemma ReverseHolds(b: Books, input: ReverseInput, number: string)
    ensures var after := Reverse(b, input, number).books;
            after == b
            || (&& 1 <= input.entryId <= |b.entries| && |after.entries| == |b.entries| + 1
                && var original, e := b.entries[input.entryId - 1], after.entries[|b.entries|];
                && after == b.(entries := b.entries[input.entryId - 1 := after.entries[input.entryId - 1]] + [e])
                && original.status == Posted && after.entries[input.entryId - 1] == original.(status := Reversed, reversedBy := Some(|b.entries| + 1))
                && e.number == number && Exists(e.date) && Prints(e.date, input.reversalDate)
                && e.sourceModule == Some("journal_reversal") && e.sourceId == Some(DecimalText(input.entryId))
                && e.status == Posted && e.reversedBy == None && e.basis == original.basis
                && MirrorsAll(e.lines, original.lines)
                && 2000 <= e.date.year <= 2100
                && ((e.date.year, e.date.month) in b.periods ==> b.periods[(e.date.year, e.date.month)].status == Open))
  {
    if Reverse(b, input, number).books != b { DateReadsPrint(input.reversalDate); }
    hide Exists, Prints, ReadCivil, FindSource, Mirrors;
  }

  /** The text is a date of the calendar in an open month of the years 2000 to 2100. */
  predicate OpenDate(periods: map<(int, int), Period>, d: Civil, text: string) {
    && Prints(d, text) && Exists(d) && 2000 <= d.year <= 2100
    && ((d.year, d.month) in periods ==> periods[(d.year, d.month)].status == Open)
  }

  lemma OpenDateIff(periods: map<(int, int), Period>, text: string)
    ensures DateFault(periods, text).None? && Exists(ReadCivil(text)) <==> exists d :: OpenDate(periods, d, text)
  {
    if DateFault(periods, text).None? && Exists(ReadCivil(text)) {
      DateReadsPrint(text);
      assert OpenDate(periods, ReadCivil(text), text);
    }
    if d :| OpenDate(periods, d, text) {
      PrintedDateReads(d);
      hide Prints, ReadCivil, Exists;
      assert Exists(d);
    }
  }

  /** When a posting adds its entry: sound lines, an open date, a new source and active accounts. */
  lemma PostAddsIff(b: Books, input: EntryInput, number: string)
    ensures Post(b, input, number).books != b <==>
            && Acceptable(input.lines)
            && (exists d :: OpenDate(b.periods, d, input.entryDate))
            && (forall i :: 0 <= i < |b.entries| ==> !SameSource(b.entries[i], input.sourceModule, input.sourceId))
            && (forall i :: 0 <= i < |input.lines| ==>
                  exists a :: 0 <= a < |b.chart| && b.chart[a].code == input.lines[i].accountCode && b.chart[a].active)
  {
    OpenDateIff(b.periods, input.entryDate);
    hide OpenDate, Prints, ReadCivil, Exists, DateFault, Acceptable, SameSource;
    forall i | 0 <= i < |input.lines|
      ensures Known(b.chart, input.lines[i].accountCode) <==>
              exists a :: 0 <= a < |b.chart| && b.chart[a].code == input.lines[i].accountCode && b.chart[a].active
    {
      var found := AccountOf(b.chart, input.lines[i].accountCode);
      if found.Some? { assert b.chart[found.value].active; }
    }
  }

  /** When a posting answers with an entry that is there already: a complete source that was posted before. */
  lemma PostRepeatsIff(b: Books, input: EntryInput, number: string)
    ensures var outcome := Post(b, input, number);
            outcome.result.Ok? && outcome.books == b <==>
            && Acceptable(input.lines)
            && input.sourceModule.Some? && input.sourceModule.value != "" && input.sourceId.Some? && input.sourceId.value != ""
            && exists i :: 0 <= i < |b.entries| && SameSource(b.entries[i], input.sourceModule, input.sourceId)
  {
    hide OpenDate, Prints, ReadCivil, Exists, DateFault, Acceptable, SameSource;
  }

  /** When a reversal happens: a posted entry not reversed so far, at an open date. */
  lemma ReverseAddsIff(b: Books, input: ReverseInput, number: string)
    ensures Reverse(b, input, number).books != b <==>
            && 1 <= input.entryId <= |b.entries| && b.entries[input.entryId - 1].status == Posted
            && |b.entries[input.entryId - 1].lines| >= 2
            && (exists d :: OpenDate(b.periods, d, input.reversalDate))
            && (forall i :: 0 <= i < |b.entries| ==>
                  !SameSource(b.entries[i], Some("journal_reversal"), Some(DecimalText(input.entryId))))
  {
    OpenDateIff(b.periods, input.reversalDate);
    hide OpenDate, Prints, ReadCivil, Exists, DateFault, SameSource;
  }

  /** Appending a sound entry with a new source keeps the books sound. */
  lemma AppendSound(b: Books, e: Entry)
    requires Sound(b) && EntrySound(b, e) && e.status == Posted && e.reversedBy == None
    requires FindSource(b.entries, e.sourceModule, e.sourceId) == |b.entries|
    ensures Sound(b.(entries := b.entries + [e]))
  {
    var after := b.entries + [e];
    forall i | 0 <= i < |after| ensures LinkSound(after, i) {
      if i < |b.entries| { assert LinkSound(b.entries, i); }
    }
  }

  lemma PostSound(b: Books, input: EntryInput, number: string)
    requires Sound(b)
    ensures Sound(Post(b, input, number).books)
  {
    if Post(b, input, number).books != b {
      NewEntrySound(b, input, number);
      AppendSound(b, NewEntry(b.chart, input, number));
    }
  }

  /** The mirror of a sound entry at an open date is sound. */
  lemma ReversalSound(b: Books, input: ReverseInput, number: string)
    requires Sound(b) && ReverseFault(b, input).None?
    ensures var original, e := b.entries[input.entryId - 1], ReversalEntry(b.entries[input.entryId - 1], input, number);
            && original.status == Posted && original.reversedBy == None
            && EntrySound(b, e) && MirrorsAll(e.lines, original.lines)
            && FindSource(b.entries, e.sourceModule, e.sourceId) == |b.entries|
  {
    hide Balanced, SourcesUnique, ReadCivil;
    var original := b.entries[input.entryId - 1];
    var e := ReversalEntry(original, input, number);
    assert EntrySound(b, original) && LinkSound(b.entries, input.entryId - 1);
    MirrorBalanced(e.lines, original.lines);
    assert forall j :: 0 <= j < |e.lines| ==> Mirrors(e.lines[j], original.lines[j]);
  }

  lemma ReverseSound(b: Books, input: ReverseInput, number: string)
    requires Sound(b)
    ensures Sound(Reverse(b, input, number).books)
  {
    hide Sound, Balanced, SourcesUnique, Exists, ReadCivil, FindSource;
    if ReverseFault(b, input).None? {
      var k := input.entryId - 1;
      var original := b.entries[k];
      var e := ReversalEntry(original, input, number);
      ReversalSound(b, input, number);
      AppendSound(b, e);
      MarkSound(b.(entries := b.entries + [e]), k);
      assert Reverse(b, input, number).books.entries == MarkReversed(b.entries + [e], k);
    }
  }

  function MarkReversed(entries: seq<Entry>, k: nat): seq<Entry>
    requires k < |entries|
  {
    entries[k := entries[k].(status := Reversed, reversedBy := Some(|entries|))]
  }

  lemma MarkKeepsLink(entries: seq<Entry>, k: nat, i: nat)
    requires k + 1 < |entries| && i < |entries| && LinkSound(entries, i)
    requires var last := entries[|entries| - 1];
             SameSource(last, Some(REVERSAL), Some(DecimalText(k + 1))) && MirrorsAll(last.lines, entries[k].lines)
    ensures LinkSound(MarkReversed(entries, k), i)
  {
    hide MirrorsAll;
  }

  lemma MarkKeepsSources(entries: seq<Entry>, k: nat)
    requires k < |entries| && SourcesUnique(entries)
    ensures SourcesUnique(MarkReversed(entries, k))
  {
  }

  lemma MarkSound(b: Books, k: nat)
    requires Sound(b) && k + 1 < |b.entries|
    requires var last := b.entries[|b.entries| - 1];
             SameSource(last, Some(REVERSAL), Some(DecimalText(k + 1))) && MirrorsAll(last.lines, b.entries[k].lines)
    ensures Sound(b.(entries := MarkReversed(b.entries, k)))
  {
    var after := MarkReversed(b.entries, k);
    forall i | 0 <= i < |after| ensures LinkSound(after, i) && EntrySound(b, after[i]) {
      assert LinkSound(b.entries, i) && EntrySound(b, b.entries[i]);
      MarkKeepsLink(b.entries, k, i);
    }
    MarkKeepsSources(b.entries, k);
    hide LinkSound, EntrySound, SourcesUnique;
  }

  lemma ApplySound(b: Books, step: Step)
    requires Sound(b)
    ensures Sound(Apply(b, step))
  {
    match step {
      case PostStep(input, number) => PostSound(b, input, number);
      case ReverseStep(input, number) => ReverseSound(b, input, number);
      case _ =>
        var after := Apply(b, step);
        assert after.entries == b.entries;
        forall i | 0 <= i < |b.entries| ensures EntrySound(after, after.entries[i]) {
          assert EntrySound(b, b.entries[i]);
        }
    }
  }

  /**
   * In every reachable ledger each entry balances on two or more one-sided
   * lines, sources are unique, dates lie in 2000 to 2100, and every reversal
   * link points to a later mirror image.
   */
  lemma {:induction false} RunSound(b: Books, steps: seq<Step>)
    requires Sound(b)
    ensures Sound(Run(b, steps))
    ensures forall i, j :: 0 <= i < |Run(b, steps).entries| && 0 <= j < |Run(b, steps).entries[i].lines| ==>
              var line := Run(b, steps).entries[i].lines[j]; (line.debit == 0) != (line.credit == 0)
  {
    if steps != [] {
      RunSound(b, steps[..|steps| - 1]);
      ApplySound(Run(b, steps[..|steps| - 1]), steps[|steps| - 1]);
    }
  }
}
