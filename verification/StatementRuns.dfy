/**
 * Statements, their replacement and their postings as one state machine: what
 * the ledger owes an owner for a statement, over every run.
 */
module StatementRuns {
  import opened Prelude
  import opened Money
  import opened Journal
  import opened Periods
  import opened Ledger
  import L = LedgerRuns
  import H = LedgerHistory
  import Posting
  import opened OwnerStatements
  import R = Reconciliation

  /** Any choice of dimension tags. */
  type TagChoice = Tags -> bool

  /** The lines of an account, by its code, with the chosen tags. */
  function OnCode(chart: seq<Account>, code: string, pick: TagChoice): Selector {
    (a: nat, t: Tags) => a < |chart| && chart[a].code == code && pick(t)
  }

  function Payable(chart: seq<Account>, pick: TagChoice): Selector {
    OnCode(chart, OWNER_PAYABLE, pick)
  }

  predicate IsGenerated(e: Entry, id: nat) {
    SameSource(e, Some(STATEMENTS), Some(GeneratedSource(id)))
  }

  predicate IsTransfer(e: Entry, id: nat) {
    SameSource(e, Some(TRANSFERS), Some(DecimalText(id)))
  }

  /** Net debit of the chosen payable lines over the entries of one statement. */
  function StatementNet(chart: seq<Account>, entries: seq<Entry>, id: nat, pick: TagChoice): int {
    if entries == [] then 0
    else
      var last := entries[|entries| - 1];
      StatementNet(chart, entries[..|entries| - 1], id, pick)
      + if IsGenerated(last, id) || IsTransfer(last, id) then Net(last.lines, Payable(chart, pick)) else 0
  }

  function Chosen(pick: TagChoice, s: Statement, amount: int): int {
    if pick(StatementTags(s)) then amount else 0
  }

  // ---------------------------------------------------------------- machine

  /** A posting whose worker has read the row and not yet entered it into the ledger. */
  datatype Reading =
    | Recording(id: nat, row: Statement)
    | Paying(id: nat, row: Statement, today: string)

  /** The statement rows, by number; a deleted one is gone for good. */
  datatype State = State(rows: seq<Option<Statement>>, books: Books, loaded: map<nat, Reading>)

  datatype Step =
    | AddRow(statement: Statement)
    | Replace(id: nat, gross: int, maintenance: int, commission: int, net: int)
    | Remove(id: nat)
    | LoadGenerated(worker: nat, id: nat)
    | LoadTransfer(worker: nat, id: nat, today: string)
    | Enter(worker: nat, number: string)
    | Abandon(worker: nat)
    | OtherStep(step: L.Step)

  function RowAt(s: State, id: nat): Option<Statement> {
    if 1 <= id <= |s.rows| then s.rows[id - 1] else None
  }

  /** Owner, property, unit and period of a statement never change. */
  function Replaced(s: Statement, gross: int, maintenance: int, commission: int, net: int): Statement {
    s.(gross := gross, maintenance := maintenance, commission := commission, net := net)
  }

  predicate IsStatementSource(sourceModule: Option<string>) {
    sourceModule == Some(STATEMENTS) || sourceModule == Some(TRANSFERS)
  }

  /** The entry handed to the ledger, from the row as it was read. */
  function EntryOf(p: Reading): EntryInput {
    match p
    case Recording(id, row) => GeneratedEntry(row, id)
    case Paying(id, row, today) => TransferEntry(row, id, today)
  }

  /** The amount checks between the reading and the posting. */
  predicate Passes(p: Reading) {
    match p
    case Recording(_, row) => GeneratedFault(row).None?
    case Paying(_, row, _) => row.net > 0
  }

  function Load(s: State, worker: nat, p: Reading): State {
    if Passes(p) then s.(loaded := s.loaded[worker := p]) else s
  }

  function Apply(s: State, step: Step): State {
    match step
    case AddRow(statement) => s.(rows := s.rows + [Some(statement)])
    case Replace(id, gross, maintenance, commission, net) =>
      if RowAt(s, id).Some? then s.(rows := s.rows[id - 1 := Some(Replaced(RowAt(s, id).value, gross, maintenance, commission, net))]) else s
    case Remove(id) => if RowAt(s, id).Some? then s.(rows := s.rows[id - 1 := None]) else s
    case LoadGenerated(worker, id) =>
      if worker !in s.loaded && RowAt(s, id).Some? then Load(s, worker, Recording(id, RowAt(s, id).value)) else s
    case LoadTransfer(worker, id, today) =>
      if worker !in s.loaded && RowAt(s, id).Some? then Load(s, worker, Paying(id, RowAt(s, id).value, today)) else s
    case Enter(worker, number) =>
      if worker in s.loaded
      then s.(books := Post(s.books, EntryOf(s.loaded[worker]), number).books, loaded := s.loaded - {worker}) else s
    case Abandon(worker) => s.(loaded := s.loaded - {worker})
    case OtherStep(inner) =>
      if inner.PostStep? && IsStatementSource(inner.entry.sourceModule) then s else s.(books := L.Apply(s.books, inner))
  }

  function Run(s: State, steps: seq<Step>): State {
    if steps == [] then s else Apply(Run(s, steps[..|steps| - 1]), steps[|steps| - 1])
  }

  /** The posting adds an entry: it is neither refused nor a repetition. */
  predicate Adds(s: State, step: Step) {
    |Apply(s, step).books.entries| > |s.books.entries|
  }

  predicate Records(s: State, step: Step, id: nat) {
    step.Enter? && step.worker in s.loaded && s.loaded[step.worker].Recording? && s.loaded[step.worker].id == id && Adds(s, step)
  }

  predicate Pays(s: State, step: Step, id: nat) {
    step.Enter? && step.worker in s.loaded && s.loaded[step.worker].Paying? && s.loaded[step.worker].id == id && Adds(s, step)
  }

  function NetOfReading(s: State, step: Step, pick: TagChoice): int
    requires step.Enter? && step.worker in s.loaded
  {
    var row := s.loaded[step.worker].row;
    Chosen(pick, row, row.net)
  }

  /** The net its worker had read when the entry was added; refused and repeated postings add nothing. */
  function RecordedNet(s: State, steps: seq<Step>, id: nat, pick: TagChoice): int {
    if steps == [] then 0
    else
      var before, last := Run(s, steps[..|steps| - 1]), steps[|steps| - 1];
      RecordedNet(s, steps[..|steps| - 1], id, pick) + if Records(before, last, id) then NetOfReading(before, last, pick) else 0
  }

  function PaidNet(s: State, steps: seq<Step>, id: nat, pick: TagChoice): int {
    if steps == [] then 0
    else
      var before, last := Run(s, steps[..|steps| - 1]), steps[|steps| - 1];
      PaidNet(s, steps[..|steps| - 1], id, pick) + if Pays(before, last, id) then NetOfReading(before, last, pick) else 0
  }

  // --------------------------------------------------------- stored entries

  lemma {:induction false} NetOfStored(chart: seq<Account>, lines: seq<LineInput>, pick: Selector)
    requires lines != []
    requires forall i :: 0 <= i < |lines| ==> Known(chart, lines[i].accountCode) && LineAcceptable(lines[i])
    ensures var k := |lines| - 1;
            Net(StoredLines(chart, lines), pick) ==
            Net(StoredLines(chart, lines[..k]), pick) + NetOfLine(Stored(chart, lines[k]), pick)
  {
    assert StoredLines(chart, lines)[..|lines| - 1] == StoredLines(chart, lines[..|lines| - 1]);
  }

  /** An optional credit takes its amount from its own account, and nothing elsewhere. */
  lemma OptionalNet(chart: seq<Account>, s: Statement, lines: seq<LineInput>, code: string, cents: int, memo: string,
                    account: string, pick: TagChoice)
    requires var more := lines + If(cents > 0, CreditLine(s, code, cents, memo));
             forall i :: 0 <= i < |more| ==> Known(chart, more[i].accountCode) && LineAcceptable(more[i])
    ensures forall i :: 0 <= i < |lines| ==> Known(chart, lines[i].accountCode) && LineAcceptable(lines[i])
    ensures var more := lines + If(cents > 0, CreditLine(s, code, cents, memo));
            Net(StoredLines(chart, more), OnCode(chart, account, pick)) ==
            Net(StoredLines(chart, lines), OnCode(chart, account, pick))
            - if code == account then Chosen(pick, s, Max(cents, 0)) else 0
  {
    var more := lines + If(cents > 0, CreditLine(s, code, cents, memo));
    forall i | 0 <= i < |lines| ensures Known(chart, lines[i].accountCode) && LineAcceptable(lines[i]) {
      assert lines[i] == more[i];
    }
    if cents > 0 {
      NetOfStored(chart, more, OnCode(chart, account, pick));
      assert more[..|lines|] == lines;
      LineCents(s, code, cents, memo);
    } else {
      assert more == lines;
    }
  }

  /** Gross leaves 4000; commission on 4200, net on 2100 and maintenance on 5200 take their parts. */
  lemma GeneratedNet(chart: seq<Account>, s: Statement, account: string, pick: TagChoice)
    requires forall i :: 0 <= i < |GeneratedLines(s)| ==> Known(chart, GeneratedLines(s)[i].accountCode)
    requires Acceptable(GeneratedLines(s)) && s.net >= 0
    ensures Net(StoredLines(chart, GeneratedLines(s)), OnCode(chart, account, pick)) ==
            (if account == "4000" then Chosen(pick, s, s.gross) else 0)
            - (if account == "4200" then Chosen(pick, s, Max(s.commission, 0)) else 0)
            - (if account == "2100" then Chosen(pick, s, s.net) else 0)
            - (if account == "5200" then Chosen(pick, s, Max(s.maintenance, 0)) else 0)
  {
    var first := [GrossLine(s)];
    var second := first + If(s.commission > 0, CommissionLine(s));
    var third := second + If(s.net > 0, PayableLine(s));
    hide LineAcceptable, Net, StoredLines, Known;
    OptionalNet(chart, s, third, MAINTENANCE, s.maintenance, MaintenanceLine(s).memo.value, account, pick);
    OptionalNet(chart, s, second, OWNER_PAYABLE, s.net, PayableLine(s).memo.value, account, pick);
    OptionalNet(chart, s, first, COMMISSION_INCOME, s.commission, CommissionLine(s).memo.value, account, pick);
    assert first[0] == GrossLine(s);
    GrossNet(chart, s, account, pick);
  }

  lemma GrossNet(chart: seq<Account>, s: Statement, account: string, pick: TagChoice)
    requires Known(chart, RENT_INCOME) && LineAcceptable(GrossLine(s))
    ensures Net(StoredLines(chart, [GrossLine(s)]), OnCode(chart, account, pick)) ==
            if account == RENT_INCOME then Chosen(pick, s, s.gross) else 0
  {
    assert s.gross as real / 100.0 >= 0.0;
    NetOfStored(chart, [GrossLine(s)], OnCode(chart, account, pick));
    assert [GrossLine(s)][..0] == [] && StoredLines(chart, []) == [];
    LineCents(s, RENT_INCOME, s.gross, GrossLine(s).memo.value);
  }

  /** A transfer pays what is owed on 2100 from cash on 1100. */
  lemma TransferNet(chart: seq<Account>, s: Statement, account: string, pick: TagChoice)
    requires forall i :: 0 <= i < |TransferLines(s)| ==> Known(chart, TransferLines(s)[i].accountCode)
    requires Acceptable(TransferLines(s)) && s.net > 0
    ensures Net(StoredLines(chart, TransferLines(s)), OnCode(chart, account, pick)) ==
            (if account == "2100" then Chosen(pick, s, s.net) else 0) - (if account == "1100" then Chosen(pick, s, s.net) else 0)
  {
    var stored := StoredLines(chart, TransferLines(s));
    R.TwoLineNet(stored, OnCode(chart, account, pick));
    LineCents(s, OWNER_PAYABLE, s.net, TransferLines(s)[0].memo.value);
    LineCents(s, Posting.CASH, s.net, TransferLines(s)[1].memo.value);
    assert TransferLines(s)[0].accountCode == OWNER_PAYABLE && TransferLines(s)[1].accountCode == Posting.CASH;
  }

  /** Every line names the property, unit and owner of the statement. */
  predicate TaggedWith(e: Entry, s: Statement) {
    forall i :: 0 <= i < |e.lines| ==>
      && e.lines[i].tags.propertyId == Some(s.propertyId) && e.lines[i].tags.unitId == s.unitId
      && e.lines[i].tags.ownerId == Some(s.ownerId)
      && e.lines[i].tags.paymentId == None && e.lines[i].tags.contractId == None
  }

  /**
   * What recording a statement puts on every account: its gross debited on 4000
   * and its parts credited on 4200, 2100 and 5200, on the first of its month.
   */
  lemma GeneratedPosted(b: Books, s: Statement, id: nat, number: string, account: string, pick: TagChoice)
    requires GeneratedFault(s).None? && Post(b, GeneratedEntry(s, id), number).books != b
    ensures var after := Post(b, GeneratedEntry(s, id), number).books;
            && |after.entries| == |b.entries| + 1
            && var e := after.entries[|b.entries|];
            && e.sourceModule == Some("owner_statements") && e.sourceId == Some("generated:" + DecimalText(id))
            && (ValidYearMonth(s.year, s.month) ==> e.date == Civil(s.year, s.month, 1))
            && TaggedWith(e, s)
            && Net(e.lines, OnCode(after.chart, account, pick)) ==
               (if account == "4000" then Chosen(pick, s, s.gross) else 0)
               - (if account == "4200" then Chosen(pick, s, s.commission) else 0)
               - (if account == "2100" then Chosen(pick, s, s.net) else 0)
               - (if account == "5200" then Chosen(pick, s, s.maintenance) else 0)
  {
    hide Post, L.Holds, GeneratedLines, Net, OnCode, PeriodDate;
    R.AddedEntry(b, GeneratedEntry(s, id), number);
    GeneratedAcceptableIff(s);
    GeneratedNet(b.chart, s, account, pick);
    GeneratedTagged(b.chart, s);
    if ValidYearMonth(s.year, s.month) { PeriodDateReads(s); }
  }

  lemma GeneratedTagged(chart: seq<Account>, s: Statement)
    requires Acceptable(GeneratedLines(s)) && forall i :: 0 <= i < |GeneratedLines(s)| ==> Known(chart, GeneratedLines(s)[i].accountCode)
    ensures forall i :: 0 <= i < |GeneratedLines(s)| ==> StoredLines(chart, GeneratedLines(s))[i].tags == StatementTags(s)
  {
    hide LineAcceptable, Known;
  }

  /** What a transfer puts on every account: the net off 2100 and out of cash on 1100. */
  lemma TransferPosted(b: Books, s: Statement, id: nat, today: string, number: string, account: string, pick: TagChoice)
    requires s.net > 0 && Post(b, TransferEntry(s, id, today), number).books != b
    ensures var after := Post(b, TransferEntry(s, id, today), number).books;
            && |after.entries| == |b.entries| + 1
            && var e := after.entries[|b.entries|];
            && e.sourceModule == Some("owner_statement_transfers") && e.sourceId == Some(DecimalText(id))
            && Prints(e.date, today) && TaggedWith(e, s)
            && Net(e.lines, OnCode(after.chart, account, pick)) ==
               (if account == "2100" then Chosen(pick, s, s.net) else 0) - (if account == "1100" then Chosen(pick, s, s.net) else 0)
  {
    hide Post, L.Holds, Net, OnCode, LineAcceptable, Known;
    R.AddedEntry(b, TransferEntry(s, id, today), number);
    TransferNet(b.chart, s, account, pick);
    DateReadsPrint(today);
  }

  // ------------------------------------------------------------ every step

  /** The books are sound and what workers hold has passed the amount checks. */
  ghost predicate Sound(s: State) {
    L.Sound(s.books) && forall w :: w in s.loaded ==> Passes(s.loaded[w])
  }

  lemma ApplySound(s: State, step: Step)
    requires Sound(s)
    ensures Sound(Apply(s, step)) && H.Extends(Apply(s, step).books, s.books)
    ensures |Apply(s, step).books.entries| <= |s.books.entries| + 1
  {
    hide L.Sound, L.Apply, H.Extends, GeneratedLines, TransferLines, GeneratedFault;
    ExtendsItself(s.books);
    if step.Enter? && step.worker in s.loaded {
      var inner := L.PostStep(EntryOf(s.loaded[step.worker]), step.number);
      PostIsStep(s.books, EntryOf(s.loaded[step.worker]), step.number);
      LedgerStep(s.books, inner);
    } else if step.OtherStep? {
      LedgerStep(s.books, step.step);
    }
  }

  lemma ExtendsItself(b: Books)
    ensures H.Extends(b, b)
  {
  }

  lemma PostIsStep(b: Books, input: EntryInput, number: string)
    ensures L.Apply(b, L.PostStep(input, number)) == Post(b, input, number).books
  {
    hide Post;
  }

  lemma LedgerStep(b: Books, step: L.Step)
    requires L.Sound(b)
    ensures L.Sound(L.Apply(b, step)) && H.Extends(L.Apply(b, step), b)
    ensures |L.Apply(b, step).entries| <= |b.entries| + 1
  {
    L.ApplySound(b, step);
    H.ApplyExtends(b, step);
  }

  /** Reversal marks and new accounts leave the net of the old entries alone. */
  lemma {:induction false} NetKept(before: Books, after: Books, id: nat, pick: TagChoice, n: nat)
    requires L.Sound(before) && H.Extends(after, before) && n <= |before.entries|
    ensures StatementNet(after.chart, after.entries[..n], id, pick) == StatementNet(before.chart, before.entries[..n], id, pick)
  {
    if n > 0 {
      var e := before.entries[n - 1];
      NetKept(before, after, id, pick, n - 1);
      assert before.entries[..n][..n - 1] == before.entries[..n - 1];
      assert after.entries[..n][..n - 1] == after.entries[..n - 1];
      assert H.SameButStatus(after.entries[n - 1], e);
      assert L.EntrySound(before, e);
      R.NetSame(e.lines, Payable(after.chart, pick), Payable(before.chart, pick));
    }
  }

  /** What the entry a step adds contributes to a statement. */
  function Contribution(s: State, step: Step, id: nat, pick: TagChoice): int {
    if Records(s, step, id) then -NetOfReading(s, step, pick)
    else if Pays(s, step, id) then NetOfReading(s, step, pick)
    else 0
  }

  lemma AddedContribution(s: State, step: Step, id: nat, pick: TagChoice)
    requires Sound(s) && Adds(s, step)
    ensures var after := Apply(s, step).books; var e := after.entries[|s.books.entries|];
            NetOfStatement(after.chart, e, id, pick) == Contribution(s, step, id, pick)
  {
    match step
    case Enter(worker, number) => EnteredContribution(s, worker, number, id, pick);
    case OtherStep(inner) => OtherContribution(s, inner, id);
    case _ =>
  }

  lemma OtherContribution(s: State, inner: L.Step, id: nat)
    requires Adds(s, OtherStep(inner))
    ensures var e := Apply(s, OtherStep(inner)).books.entries[|s.books.entries|]; !IsGenerated(e, id) && !IsTransfer(e, id)
  {
    assert REVERSAL[0] == 'j' && STATEMENTS[0] == 'o' && TRANSFERS[0] == 'o';
  }

  lemma EnteredContribution(s: State, worker: nat, number: string, id: nat, pick: TagChoice)
    requires Sound(s) && Adds(s, Enter(worker, number))
    ensures var after := Apply(s, Enter(worker, number)).books; var e := after.entries[|s.books.entries|];
            NetOfStatement(after.chart, e, id, pick) == Contribution(s, Enter(worker, number), id, pick)
  {
    hide Post, Net, Payable, GeneratedLines, TransferLines, Known, LineAcceptable, StoredLines, IsDateText, PeriodDate, L.Sound;
    var p := s.loaded[worker];
    R.AddedEntry(s.books, EntryOf(p), number);
    SourcesApart(p.id, id);
    if p.Recording? {
      GeneratedStored(s.books.chart, p.row, p.id, number, pick);
    } else {
      TransferStored(s.books.chart, p.row, p.id, p.today, number, pick);
    }
  }

  /** No statement is posted under the sources of another. */
  lemma SourcesApart(k: nat, id: nat)
    ensures GeneratedSource(k) == GeneratedSource(id) <==> k == id
    ensures DecimalText(k) == DecimalText(id) <==> k == id
    ensures STATEMENTS != TRANSFERS
  {
    assert |STATEMENTS| != |TRANSFERS|;
    if GeneratedSource(k) == GeneratedSource(id) {
      assert GeneratedSource(k)[10..] == DecimalText(k) && GeneratedSource(id)[10..] == DecimalText(id);
      DecimalTextInjective(k, id);
    }
    if DecimalText(k) == DecimalText(id) { DecimalTextInjective(k, id); }
  }

  lemma GeneratedStored(chart: seq<Account>, row: Statement, k: nat, number: string, pick: TagChoice)
    requires IsDateText(GeneratedEntry(row, k).entryDate) && Acceptable(GeneratedLines(row)) && row.net >= 0
    requires forall i :: 0 <= i < |GeneratedLines(row)| ==> Known(chart, GeneratedLines(row)[i].accountCode)
    ensures var e := NewEntry(chart, GeneratedEntry(row, k), number);
            && e.sourceModule == Some(STATEMENTS) && e.sourceId == Some(GeneratedSource(k))
            && Net(e.lines, Payable(chart, pick)) == -Chosen(pick, row, row.net)
  {
    GeneratedNet(chart, row, OWNER_PAYABLE, pick);
    assert "4000"[0] == '4' && "4200"[0] == '4' && "5200"[0] == '5' && OWNER_PAYABLE[0] == '2';
    hide GeneratedLines, Net, Payable, StoredLines;
  }

  lemma TransferStored(chart: seq<Account>, row: Statement, k: nat, today: string, number: string, pick: TagChoice)
    requires IsDateText(today) && Acceptable(TransferLines(row)) && row.net > 0
    requires forall i :: 0 <= i < |TransferLines(row)| ==> Known(chart, TransferLines(row)[i].accountCode)
    ensures var e := NewEntry(chart, TransferEntry(row, k, today), number);
            && e.sourceModule == Some(TRANSFERS) && e.sourceId == Some(DecimalText(k))
            && Net(e.lines, Payable(chart, pick)) == Chosen(pick, row, row.net)
  {
    TransferNet(chart, row, OWNER_PAYABLE, pick);
    assert "1100"[0] == '1' && OWNER_PAYABLE[0] == '2';
    hide TransferLines, Net, Payable, StoredLines;
  }

  function NetOfStatement(chart: seq<Account>, e: Entry, id: nat, pick: TagChoice): int {
    if IsGenerated(e, id) || IsTransfer(e, id) then Net(e.lines, Payable(chart, pick)) else 0
  }

  lemma NetGrows(before: Books, after: Books, id: nat, pick: TagChoice)
    requires L.Sound(before) && H.Extends(after, before) && |after.entries| <= |before.entries| + 1
    ensures StatementNet(after.chart, after.entries, id, pick) ==
            StatementNet(before.chart, before.entries, id, pick)
            + if |after.entries| > |before.entries| then NetOfStatement(after.chart, after.entries[|before.entries|], id, pick) else 0
  {
    var n := |before.entries|;
    NetKept(before, after, id, pick, n);
    hide L.Sound, H.Extends, Payable, Net, IsGenerated, IsTransfer;
    assert before.entries[..n] == before.entries;
    if |after.entries| == n { assert after.entries[..n] == after.entries; }
  }

  lemma StepMoves(s: State, step: Step, id: nat, pick: TagChoice)
    requires Sound(s)
    ensures var after := Apply(s, step).books;
            StatementNet(after.chart, after.entries, id, pick) ==
            StatementNet(s.books.chart, s.books.entries, id, pick) + Contribution(s, step, id, pick)
  {
    hide Apply, L.Sound, H.Extends, StatementNet, EntryOf, RowAt;
    ApplySound(s, step);
    NetGrows(s.books, Apply(s, step).books, id, pick);
    if Adds(s, step) { AddedContribution(s, step, id, pick); }
  }

  // -------------------------------------------------------------- every run

  /** Books without an entry and no worker busy. */
  ghost predicate Initial(s: State) {
    L.Sound(s.books) && s.books.entries == [] && s.loaded == map[]
  }

  lemma {:induction false} RunSound(s: State, steps: seq<Step>)
    requires Sound(s)
    ensures Sound(Run(s, steps))
  {
    if steps != [] {
      RunSound(s, steps[..|steps| - 1]);
      ApplySound(Run(s, steps[..|steps| - 1]), steps[|steps| - 1]);
    }
  }

  /**
   * In every run, with refused and repeated postings and with amounts replaced
   * before, between and after reading and posting, the payable account carries
   * for a statement the net its transfer was read with less the net its recording
   * was read with.
   */
  lemma {:induction false} OwedOverRuns(s: State, steps: seq<Step>, id: nat, pick: TagChoice)
    requires Initial(s)
    ensures var after := Run(s, steps).books;
            StatementNet(after.chart, after.entries, id, pick) == PaidNet(s, steps, id, pick) - RecordedNet(s, steps, id, pick)
  {
    hide L.Sound, Apply, Sound, NetOfReading, Adds;
    if steps != [] {
      OwedOverRuns(s, steps[..|steps| - 1], id, pick);
      InitialSound(s);
      RunSound(s, steps[..|steps| - 1]);
      StepMoves(Run(s, steps[..|steps| - 1]), steps[|steps| - 1], id, pick);
    }
  }

  lemma InitialSound(s: State)
    requires Initial(s)
    ensures Sound(s)
  {
  }

  // ------------------------------------------------------------- only once

  function RecordedTimes(s: State, steps: seq<Step>, id: nat): nat {
    if steps == [] then 0
    else RecordedTimes(s, steps[..|steps| - 1], id) + if Records(Run(s, steps[..|steps| - 1]), steps[|steps| - 1], id) then 1 else 0
  }

  function PaidTimes(s: State, steps: seq<Step>, id: nat): nat {
    if steps == [] then 0
    else PaidTimes(s, steps[..|steps| - 1], id) + if Pays(Run(s, steps[..|steps| - 1]), steps[|steps| - 1], id) then 1 else 0
  }

  ghost predicate HasGenerated(b: Books, id: nat) {
    exists i :: 0 <= i < |b.entries| && IsGenerated(b.entries[i], id)
  }

  ghost predicate HasTransfer(b: Books, id: nat) {
    exists i :: 0 <= i < |b.entries| && IsTransfer(b.entries[i], id)
  }

  /** An entry is added only while there is none of its source, and stays. */
  lemma AddsFirst(s: State, step: Step, id: nat)
    requires Sound(s)
    ensures HasGenerated(s.books, id) ==> HasGenerated(Apply(s, step).books, id) && !Records(s, step, id)
    ensures HasTransfer(s.books, id) ==> HasTransfer(Apply(s, step).books, id) && !Pays(s, step, id)
    ensures Records(s, step, id) ==> HasGenerated(Apply(s, step).books, id)
    ensures Pays(s, step, id) ==> HasTransfer(Apply(s, step).books, id)
  {
    hide Apply, L.Sound, EntryOf, RowAt, Sound;
    var after := Apply(s, step).books;
    ApplySound(s, step);
    if i :| 0 <= i < |s.books.entries| && IsGenerated(s.books.entries[i], id) {
      assert H.SameButStatus(after.entries[i], s.books.entries[i]);
      assert IsGenerated(after.entries[i], id);
    }
    if i :| 0 <= i < |s.books.entries| && IsTransfer(s.books.entries[i], id) {
      assert H.SameButStatus(after.entries[i], s.books.entries[i]);
      assert IsTransfer(after.entries[i], id);
    }
    NewIsFirst(s, step, id);
  }

  lemma NewIsFirst(s: State, step: Step, id: nat)
    ensures Records(s, step, id) ==>
              IsGenerated(Apply(s, step).books.entries[|s.books.entries|], id) && !HasGenerated(s.books, id)
    ensures Pays(s, step, id) ==>
              IsTransfer(Apply(s, step).books.entries[|s.books.entries|], id) && !HasTransfer(s.books, id)
  {
    hide Post, GeneratedLines, TransferLines;
    if Records(s, step, id) || Pays(s, step, id) {
      PostIsFirst(s.books, EntryOf(s.loaded[step.worker]), step.number);
    }
  }

  lemma PostIsFirst(b: Books, input: EntryInput, number: string)
    ensures var after := Post(b, input, number).books;
            |after.entries| > |b.entries| ==>
              var e := after.entries[|b.entries|];
              && e.sourceModule == input.sourceModule && e.sourceId == input.sourceId
              && forall i :: 0 <= i < |b.entries| ==> !SameSource(b.entries[i], input.sourceModule, input.sourceId)
  {
  }

  /** In every run a statement is recorded at most once and paid out at most once. */
  lemma {:induction false} OnceEach(s: State, steps: seq<Step>, id: nat)
    requires Initial(s)
    ensures RecordedTimes(s, steps, id) <= 1 && (RecordedTimes(s, steps, id) == 1 ==> HasGenerated(Run(s, steps).books, id))
    ensures PaidTimes(s, steps, id) <= 1 && (PaidTimes(s, steps, id) == 1 ==> HasTransfer(Run(s, steps).books, id))
  {
    hide L.Sound, Sound, HasGenerated, HasTransfer, Records, Pays, Apply;
    if steps != [] {
      OnceEach(s, steps[..|steps| - 1], id);
      InitialSound(s);
      RunSound(s, steps[..|steps| - 1]);
      AddsFirst(Run(s, steps[..|steps| - 1]), steps[|steps| - 1], id);
    }
  }

  /** For any choice of tags a statement is settled exactly when the net paid is the net recorded. */
  lemma SettledIff(s: State, steps: seq<Step>, id: nat, pick: TagChoice)
    requires Initial(s)
    ensures RecordedTimes(s, steps, id) <= 1 && PaidTimes(s, steps, id) <= 1
    ensures var after := Run(s, steps).books;
            StatementNet(after.chart, after.entries, id, pick) == 0 <==> PaidNet(s, steps, id, pick) == RecordedNet(s, steps, id, pick)
  {
    hide L.Sound;
    OwedOverRuns(s, steps, id, pick);
    OnceEach(s, steps, id);
  }

  // ----------------------------------------------------- nothing in between

  /** A posting that nothing interrupts, as one function of the row and the books. */
  function PostedNow(s: State, p: Reading, number: string): State {
    if Passes(p) then s.(books := Post(s.books, EntryOf(p), number).books) else s
  }

  lemma PostingIsRun(s: State, id: nat, today: string, number: string)
    requires s.loaded == map[] && RowAt(s, id).Some?
    ensures Run(s, [LoadGenerated(0, id), Enter(0, number)]) == PostedNow(s, Recording(id, RowAt(s, id).value), number)
    ensures Run(s, [LoadTransfer(0, id, today), Enter(0, number)]) == PostedNow(s, Paying(id, RowAt(s, id).value, today), number)
  {
    hide Post, EntryOf, Passes;
    TwoSteps(s, LoadGenerated(0, id), Enter(0, number));
    TwoSteps(s, LoadTransfer(0, id, today), Enter(0, number));
  }

  lemma NoRowNoPosting(s: State, id: nat, today: string, number: string)
    requires s.loaded == map[] && RowAt(s, id).None?
    ensures Run(s, [LoadGenerated(0, id), Enter(0, number)]) == s && Run(s, [LoadTransfer(0, id, today), Enter(0, number)]) == s
  {
    TwoSteps(s, LoadGenerated(0, id), Enter(0, number));
    TwoSteps(s, LoadTransfer(0, id, today), Enter(0, number));
  }

  lemma TwoSteps(s: State, a: Step, b: Step)
    ensures Run(s, [a, b]) == Apply(Apply(s, a), b)
  {
    hide Apply;
    assert [a, b][..1] == [a] && [a][..0] == [];
    assert Run(s, [a]) == Apply(Run(s, []), a);
  }
}
