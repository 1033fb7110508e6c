/**
 * Posting and reversing as the service runs them: a validation loop, statements
 * in a transaction, and a rollback when one of them fails
 * (accounting-ledger.service.ts, accounting-periods.service.ts).
 */
module LedgerService {
  import opened Prelude
  import opened Journal
  import opened Money
  import opened Ledger
  import opened Periods
  import L = LedgerRuns
  import opened TenantTables

  class AccountingPeriodsService {
    const db: Tables

    constructor (db: Tables)
      ensures this.db == db
    {
      this.db := db;
    }

    method AssertPeriodOpen(entryDate: string) returns (fault: Option<PeriodError>)
      ensures fault == DateFault(db.periods, entryDate)
      ensures fault.None? <==>
              IsDateText(entryDate) && (var d := ReadCivil(entryDate); ValidYearMonth(d.year, d.month) && !IsClosed(db.periods, d.year, d.month))
    {
      if !IsDateText(entryDate) {
        return Some(BadDateText);
      }
      var date := ReadCivil(entryDate);
      if !ValidYearMonth(date.year, date.month) {
        return Some(BadYearMonth);
      }
      var period := PeriodAt(db.periods, date.year, date.month);
      if period.Some? && period.value.status == Closed {
        return Some(PeriodClosed);
      }
      return None;
    }

    method ClosePeriod(year: int, month: int, now: int, closedBy: Option<int>) returns (r: Result<Period, PeriodError>)
      modifies db`periods
      ensures db.GetBooks() == L.Apply(old(db.GetBooks()), L.CloseStep(year, month, now, closedBy))
      ensures r.Ok? <==> ValidYearMonth(year, month)
      ensures r.Ok? ==> IsClosed(db.periods, year, month) && r.value == db.periods[(year, month)]
      ensures r.Ok? ==>
                var row := PeriodAt(old(db.periods), year, month);
                && r.value.closedAt == (if row.Some? && row.value.closedAt.Some? then row.value.closedAt else Some(now))
                && r.value.closedBy == (if row.Some? && row.value.closedBy.Some? then row.value.closedBy else closedBy)
      ensures forall k | k in old(db.periods) :: k != (year, month) ==> k in db.periods && db.periods[k] == old(db.periods)[k]
    {
      if !ValidYearMonth(year, month) {
        return Err(BadYearMonth);
      }
      var row := ClosedRow(PeriodAt(db.periods, year, month), now, closedBy);
      db.periods := db.periods[(year, month) := row];
      return Ok(row);
    }

    method ReopenPeriod(year: int, month: int, now: int, reopenedBy: int, reason: string) returns (r: Result<Period, PeriodError>)
      modifies db`periods
      ensures db.GetBooks() == L.Apply(old(db.GetBooks()), L.ReopenStep(year, month, now, reopenedBy, reason))
      ensures r.Ok? <==> ValidYearMonth(year, month) && !Blank(reason)
      ensures r.Ok? ==> !IsClosed(db.periods, year, month) && (year, month) in db.periods && r.value == db.periods[(year, month)]
      ensures r.Ok? ==>
                && r.value.reopenedAt == Some(now) && r.value.reopenedBy == Some(reopenedBy)
                && r.value.reopenReason == Some(Trim(reason))
                && ((year, month) in old(db.periods) ==> r.value.closedAt == old(db.periods)[(year, month)].closedAt)
      ensures forall k | k in old(db.periods) :: k != (year, month) ==> k in db.periods && db.periods[k] == old(db.periods)[k]
    {
      if !ValidYearMonth(year, month) {
        return Err(BadYearMonth);
      }
      var trimmedReason := Trim(reason);
      if trimmedReason == "" {
        return Err(NoReason);
      }
      var row := ReopenedRow(PeriodAt(db.periods, year, month), now, reopenedBy, trimmedReason);
      db.periods := db.periods[(year, month) := row];
      return Ok(row);
    }
  }

  class AccountingLedgerService {
    const db: Tables
    const periodsService: AccountingPeriodsService

    constructor (db: Tables)
      ensures this.db == db && Valid()
    {
      this.db := db;
      periodsService := new AccountingPeriodsService(db);
    }

    predicate Valid() {
      periodsService.db == db
    }

    /** The first fault of the lines in order, then the balance. */
    method ValidateEntry(lines: seq<LineInput>) returns (fault: Option<LedgerError>)
      ensures fault == ValidationFault(lines)
      ensures fault.None? <==> Acceptable(lines)
    {
      if |lines| < 2 {
        return Some(TooFewLines);
      }
      var debitCents, creditCents := 0, 0;
      for i := 0 to |lines|
        invariant forall k :: 0 <= k < i ==> LineAcceptable(lines[k])
        invariant debitCents == DebitCents(lines[..i]) && creditCents == CreditCents(lines[..i])
      {
        var line := lines[i];
        assert lines[..i + 1][..i] == lines[..i];
        if Blank(line.accountCode) {
          return Some(NoAccountCode);
        }
        if line.debit < 0.0 || line.credit < 0.0 {
          return Some(NegativeAmount);
        }
        var debit, credit := ToCents(line.debit), ToCents(line.credit);
        NonNegativeCents(line.debit);
        NonNegativeCents(line.credit);
        if (debit > 0 && credit > 0) || (debit == 0 && credit == 0) {
          return Some(NotOneSided);
        }
        debitCents := debitCents + debit;
        creditCents := creditCents + credit;
      }
      assert lines[..|lines|] == lines;
      if debitCents != creditCents {
        return Some(Unbalanced);
      }
      return None;
    }

    /** One transaction; a failure anywhere leaves the books exactly as they were. */
    method PostEntry(input: EntryInput, number: string) returns (r: Result<Receipt, LedgerError>)
      requires Valid()
      modifies db`entries
      ensures Outcome(db.GetBooks(), r) == Post(old(db.GetBooks()), input, number)
      ensures r.Err? ==> db.entries == old(db.entries)
      ensures db.entries != old(db.entries) ==>
                var e := db.entries[|old(db.entries)|];
                && db.entries == old(db.entries) + [e] && e.number == number
                && L.Holds(db.chart, e, input) && Prints(e.date, input.entryDate)
    {
      L.PostHolds(db.GetBooks(), input, number);
      hide L.Holds, Prints;
      var invalid := ValidateEntry(input.lines);
      if invalid.Some? {
        return Err(invalid.value);
      }
      var atStart := db.entries;
      if HasSource(input) {
        var existing := FindSource(db.entries, input.sourceModule, input.sourceId);
        if existing < |db.entries| {
          return Ok(Receipt(existing + 1, db.entries[existing].number));
        }
      }
      var period := periodsService.AssertPeriodOpen(input.entryDate);
      if period.Some? {
        return Err(BadPeriod(period.value));
      }
      var header := Entry(number, ReadCivil(input.entryDate), input.description, input.sourceModule, input.sourceId,
                          input.basis, Posted, None, []);
      var refused := db.InsertEntry(header);
      if refused.Some? {
        return Err(refused.value);
      }
      var unknown := InsertLines(input.lines, |db.entries|);
      if unknown.Some? {
        db.entries := atStart;
        return Err(unknown.value);
      }
      assert db.entries == atStart + [NewEntry(db.chart, input, number)];
      return Ok(Receipt(|db.entries|, number));
    }

    /** Inserts lines until one names an account that cannot be resolved. */
    method InsertLines(lines: seq<LineInput>, entryId: nat) returns (fault: Option<LedgerError>)
      requires 1 <= entryId == |db.entries| && db.entries[entryId - 1].lines == []
      requires forall i :: 0 <= i < |lines| ==> LineAcceptable(lines[i])
      modifies db`entries
      ensures var unknown := FirstUnknown(db.chart, lines, 0);
              fault == if unknown < |lines| then Some(UnknownAccount(lines[unknown].accountCode)) else None
      ensures fault.None? ==>
              && (forall i :: 0 <= i < |lines| ==> Known(db.chart, lines[i].accountCode))
              && db.entries == old(db.entries)[..entryId - 1] + [old(db.entries)[entryId - 1].(lines := StoredLines(db.chart, lines))]
    {
      for i := 0 to |lines|
        invariant forall k :: 0 <= k < i ==> Known(db.chart, lines[k].accountCode)
        invariant db.entries == old(db.entries)[..entryId - 1] + [old(db.entries)[entryId - 1].(lines := StoredLines(db.chart, lines[..i]))]
      {
        if !Known(db.chart, lines[i].accountCode) {
          return Some(UnknownAccount(lines[i].accountCode));
        }
        assert StoredLines(db.chart, lines[..i + 1]) == StoredLines(db.chart, lines[..i]) + [Stored(db.chart, lines[i])];
        db.InsertLine(entryId, Stored(db.chart, lines[i]));
      }
      assert lines[..|lines|] == lines;
      return None;
    }

    /** One transaction: mirror lines, then the original is marked as reversed. */
    method ReverseEntry(input: ReverseInput, number: string) returns (r: Result<Receipt, LedgerError>)
      requires Valid()
      modifies db`entries
      ensures Outcome(db.GetBooks(), r) == Reverse(old(db.GetBooks()), input, number)
      ensures r.Err? ==> db.entries == old(db.entries)
      ensures db.entries != old(db.entries) ==>
                var k, e := input.entryId - 1, db.entries[|old(db.entries)|];
                && 0 <= k < |old(db.entries)| && old(db.entries)[k].status == Posted
                && db.entries == old(db.entries)[k := old(db.entries)[k].(status := Reversed, reversedBy := Some(|db.entries|))] + [e]
                && e.number == number && Prints(e.date, input.reversalDate) && MirrorsAll(e.lines, old(db.entries)[k].lines)
    {
      L.ReverseHolds(db.GetBooks(), input, number);
      hide Prints, MirrorsAll;
      if input.entryId <= 0 {
        return Err(BadEntryId);
      }
      if input.entryId > |db.entries| || db.entries[input.entryId - 1].status != Posted {
        return Err(NotPosted);
      }
      var original := db.entries[input.entryId - 1];
      var period := periodsService.AssertPeriodOpen(input.reversalDate);
      if period.Some? {
        return Err(BadPeriod(period.value));
      }
      if |original.lines| < 2 {
        return Err(TooFewOriginalLines);
      }
      var whole := ReversalEntry(original, input, number);
      var refused := db.InsertEntry(whole.(lines := []));
      if refused.Some? {
        return Err(refused.value);
      }
      InsertMirror(original, |db.entries|);
      db.MarkReversed(input.entryId, |db.entries|);
      return Ok(Receipt(|db.entries|, number));
    }

    method InsertMirror(original: Entry, entryId: nat)
      requires 1 <= entryId == |db.entries| && db.entries[entryId - 1].lines == []
      modifies db`entries
      ensures db.entries == old(db.entries)[..entryId - 1]
              + [old(db.entries)[entryId - 1].(lines := MirrorLines(original.lines, original.number))]
    {
      for i := 0 to |original.lines|
        invariant db.entries == old(db.entries)[..entryId - 1]
                  + [old(db.entries)[entryId - 1].(lines := MirrorLines(original.lines[..i], original.number))]
      {
        assert MirrorLines(original.lines[..i + 1], original.number)
            == MirrorLines(original.lines[..i], original.number) + [MirrorLine(original.lines[i], original.number)];
        db.InsertLine(entryId, MirrorLine(original.lines[i], original.number));
      }
      assert original.lines[..|original.lines|] == original.lines;
    }
  }
}
