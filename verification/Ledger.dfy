/**
 * What posting and reversing do to the books (accounting-ledger.service.ts).
 * Each call is one database transaction, so it is one function of the books.
 */
module Ledger {
  import opened Prelude
  import opened Journal
  import opened Money
  import opened Periods

  datatype LineInput = LineInput(accountCode: string, debit: real, credit: real, tags: Tags, memo: Option<string>)

  datatype EntryInput = EntryInput(
    entryDate: string, description: string, sourceModule: Option<string>, sourceId: Option<string>,
    basis: Basis, lines: seq<LineInput>)

  datatype ReverseInput = ReverseInput(entryId: int, reversalDate: string, description: Option<string>)

  datatype LedgerError =
    | TooFewLines | NoAccountCode | NegativeAmount | NotOneSided | Unbalanced
    | BadPeriod(cause: PeriodError) | DateRejected | DuplicateSource | UnknownAccount(code: string)
    | BadEntryId | NotPosted | TooFewOriginalLines

  datatype Receipt = Receipt(id: nat, entryNumber: string)

  // -------------------------------------------------------------- validation

  /** A line names an account and has exactly one side that is not zero cents. */
  predicate LineAcceptable(line: LineInput) {
    && !Blank(line.accountCode)
    && line.debit >= 0.0 && line.credit >= 0.0
    && (ToCents(line.debit) > 0) != (ToCents(line.credit) > 0)
  }

  function LineFault(line: LineInput): (fault: Option<LedgerError>)
    ensures fault.None? <==> LineAcceptable(line)
  {
    if Blank(line.accountCode) then Some(NoAccountCode)
    else if line.debit < 0.0 || line.credit < 0.0 then Some(NegativeAmount)
    else
      NonNegativeCents(line.debit);
      NonNegativeCents(line.credit);
      if (ToCents(line.debit) > 0) == (ToCents(line.credit) > 0) then Some(NotOneSided) else None
  }

  lemma NonNegativeCents(amount: real)
    requires amount >= 0.0
    ensures ToCents(amount) >= 0
  {
  }

  function DebitCents(lines: seq<LineInput>): int {
    if lines == [] then 0 else DebitCents(lines[..|lines| - 1]) + ToCents(lines[|lines| - 1].debit)
  }

  function CreditCents(lines: seq<LineInput>): int {
    if lines == [] then 0 else CreditCents(lines[..|lines| - 1]) + ToCents(lines[|lines| - 1].credit)
  }

  /** The input is a journal entry: two or more sound lines whose cents balance. */
  predicate Acceptable(lines: seq<LineInput>) {
    && |lines| >= 2
    && (forall i :: 0 <= i < |lines| ==> LineAcceptable(lines[i]))
    && DebitCents(lines) == CreditCents(lines)
  }

  /** The fault reported: the first faulty line before the balance. */
  function ValidationFault(lines: seq<LineInput>): (fault: Option<LedgerError>)
    ensures fault.None? <==> Acceptable(lines)
  {
    if |lines| < 2 then Some(TooFewLines)
    else if FirstBadLine(lines, 0) < |lines| then LineFault(lines[FirstBadLine(lines, 0)])
    else if DebitCents(lines) != CreditCents(lines) then Some(Unbalanced)
    else None
  }

  function FirstBadLine(lines: seq<LineInput>, from: nat): (k: nat)
    requires from <= |lines|
    ensures from <= k <= |lines|
    ensures forall i :: from <= i < k ==> LineAcceptable(lines[i])
    ensures k < |lines| ==> !LineAcceptable(lines[k])
    decreases |lines| - from
  {
    if from == |lines| || !LineAcceptable(lines[from]) then from else FirstBadLine(lines, from + 1)
  }

  // ----------------------------------------------------------------- posting

  /** The first active account with a code. */
  function AccountOf(chart: seq<Account>, code: string, from: nat := 0): (found: Option<nat>)
    requires from <= |chart|
    ensures found.Some? ==> from <= found.value < |chart| && chart[found.value].code == code && chart[found.value].active
    ensures found.None? ==> forall i :: from <= i < |chart| ==> !(chart[i].code == code && chart[i].active)
    decreases |chart| - from
  {
    if from == |chart| then None
    else if chart[from].code == code && chart[from].active then Some(from)
    else AccountOf(chart, code, from + 1)
  }

  predicate Known(chart: seq<Account>, code: string) {
    AccountOf(chart, code).Some?
  }

  /** The first line naming an account that cannot be resolved, or the number of lines. */
  function FirstUnknown(chart: seq<Account>, lines: seq<LineInput>, from: nat): (k: nat)
    requires from <= |lines|
    ensures from <= k <= |lines|
    ensures forall i :: from <= i < k ==> Known(chart, lines[i].accountCode)
    ensures k < |lines| ==> !Known(chart, lines[k].accountCode)
    decreases |lines| - from
  {
    if from == |lines| || !Known(chart, lines[from].accountCode) then from else FirstUnknown(chart, lines, from + 1)
  }

  function Stored(chart: seq<Account>, line: LineInput): Line
    requires Known(chart, line.accountCode) && LineAcceptable(line)
  {
    NonNegativeCents(line.debit);
    NonNegativeCents(line.credit);
    Line(AccountOf(chart, line.accountCode).value, line.tags, ToCents(line.debit), ToCents(line.credit), line.memo)
  }

  function StoredLines(chart: seq<Account>, lines: seq<LineInput>): (stored: seq<Line>)
    requires forall i :: 0 <= i < |lines| ==> Known(chart, lines[i].accountCode) && LineAcceptable(lines[i])
    ensures |stored| == |lines|
    ensures forall i :: 0 <= i < |lines| ==> stored[i] == Stored(chart, lines[i])
  {
    seq(|lines|, i requires 0 <= i < |lines| => Stored(chart, lines[i]))
  }

  predicate SameSource(e: Entry, sourceModule: Option<string>, sourceId: Option<string>) {
    e.sourceModule.Some? && e.sourceId.Some? && e.sourceModule == sourceModule && e.sourceId == sourceId
  }

  /** Position of the first entry with a source, or the number of entries. */
  function FindSource(entries: seq<Entry>, sourceModule: Option<string>, sourceId: Option<string>, from: nat := 0): (k: nat)
    requires from <= |entries|
    ensures from <= k <= |entries|
    ensures forall i :: from <= i < k ==> !SameSource(entries[i], sourceModule, sourceId)
    ensures k < |entries| ==> SameSource(entries[k], sourceModule, sourceId)
    decreases |entries| - from
  {
    if from == |entries| || SameSource(entries[from], sourceModule, sourceId) then from
    else FindSource(entries, sourceModule, sourceId, from + 1)
  }

  /** Only a source with both parts present and non-empty is looked up before posting. */
  predicate HasSource(input: EntryInput) {
    input.sourceModule.Some? && input.sourceId.Some? && input.sourceModule.value != "" && input.sourceId.value != ""
  }

  datatype Outcome = Outcome(books: Books, result: Result<Receipt, LedgerError>)

  /** Why a new entry cannot be inserted, in the order the statements run. */
  function InsertFault(b: Books, date: string, sourceModule: Option<string>, sourceId: Option<string>): Option<LedgerError> {
    match DateFault(b.periods, date)
    case Some(cause) => Some(BadPeriod(cause))
    case None =>
      if !Exists(ReadCivil(date)) then Some(DateRejected)
      else if FindSource(b.entries, sourceModule, sourceId) < |b.entries| then Some(DuplicateSource)
      else None
  }

  function Post(b: Books, input: EntryInput, number: string): Outcome {
    var existing := FindSource(b.entries, input.sourceModule, input.sourceId);
    if ValidationFault(input.lines).Some? then
      Outcome(b, Err(ValidationFault(input.lines).value))
    else if HasSource(input) && existing < |b.entries| then
      Outcome(b, Ok(Receipt(existing + 1, b.entries[existing].number)))
    else if InsertFault(b, input.entryDate, input.sourceModule, input.sourceId).Some? then
      Outcome(b, Err(InsertFault(b, input.entryDate, input.sourceModule, input.sourceId).value))
    else
      var unknown := FirstUnknown(b.chart, input.lines, 0);
      if unknown < |input.lines| then Outcome(b, Err(UnknownAccount(input.lines[unknown].accountCode)))
      else Outcome(b.(entries := b.entries + [NewEntry(b.chart, input, number)]), Ok(Receipt(|b.entries| + 1, number)))
  }

  function NewEntry(chart: seq<Account>, input: EntryInput, number: string): Entry
    requires IsDateText(input.entryDate)
    requires forall i :: 0 <= i < |input.lines| ==> Known(chart, input.lines[i].accountCode) && LineAcceptable(input.lines[i])
  {
    Entry(number, ReadCivil(input.entryDate), input.description, input.sourceModule, input.sourceId, input.basis,
          Posted, None, StoredLines(chart, input.lines))
  }

  // --------------------------------------------------------------- reversing

  const REVERSAL := "journal_reversal"

  function MirrorLine(line: Line, number: string): (mirror: Line)
    ensures Mirrors(mirror, line)
  {
    Line(line.account, line.tags, line.credit, line.debit,
         Some(if line.memo.Some? && line.memo.value != "" then "Reversa: " + line.memo.value else "Reversa de " + number))
  }

  function MirrorLines(lines: seq<Line>, number: string): (mirror: seq<Line>)
    ensures |mirror| == |lines|
    ensures forall i :: 0 <= i < |lines| ==> mirror[i] == MirrorLine(lines[i], number)
  {
    seq(|lines|, i requires 0 <= i < |lines| => MirrorLine(lines[i], number))
  }

  function ReverseFault(b: Books, input: ReverseInput): Option<LedgerError> {
    if input.entryId <= 0 then Some(BadEntryId)
    else if input.entryId > |b.entries| || b.entries[input.entryId - 1].status != Posted then Some(NotPosted)
    else if DateFault(b.periods, input.reversalDate).Some? then Some(BadPeriod(DateFault(b.periods, input.reversalDate).value))
    else if |b.entries[input.entryId - 1].lines| < 2 then Some(TooFewOriginalLines)
    else InsertFault(b, input.reversalDate, Some(REVERSAL), Some(DecimalText(input.entryId)))
  }

  function ReversalEntry(original: Entry, input: ReverseInput, number: string): Entry
    requires input.entryId > 0 && IsDateText(input.reversalDate)
  {
    Entry(number, ReadCivil(input.reversalDate),
          if input.description.Some? then input.description.value else "Reversa del asiento " + original.number,
          Some(REVERSAL), Some(DecimalText(input.entryId)), original.basis, Posted, None,
          MirrorLines(original.lines, original.number))
  }

  function Reverse(b: Books, input: ReverseInput, number: string): Outcome {
    if ReverseFault(b, input).Some? then Outcome(b, Err(ReverseFault(b, input).value))
    else
      var k := input.entryId - 1;
      var original := b.entries[k];
      var marked := b.entries[k := original.(status := Reversed, reversedBy := Some(|b.entries| + 1))];
      Outcome(b.(entries := marked + [ReversalEntry(original, input, number)]), Ok(Receipt(|b.entries| + 1, number)))
  }
}
