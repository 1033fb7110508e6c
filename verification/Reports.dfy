/** Reports folded from the ledger (accounting-reports.service.ts), in cents. */
module Reports {
  import opened Prelude
  import opened Journal
  import opened LedgerRuns
  import opened LedgerHistory

  // ------------------------------------------------------- sums by account

  function On(account: nat): Selector {
    (a, t) => a == account
  }

  function LineDebits(lines: seq<Line>, account: nat): nat {
    if lines == [] then 0
    else
      var last := lines[|lines| - 1];
      LineDebits(lines[..|lines| - 1], account) + if last.account == account then last.debit else 0
  }

  function LineCredits(lines: seq<Line>, account: nat): nat {
    if lines == [] then 0
    else
      var last := lines[|lines| - 1];
      LineCredits(lines[..|lines| - 1], account) + if last.account == account then last.credit else 0
  }

  function DebitSum(entries: seq<Entry>, account: nat): nat {
    if entries == [] then 0
    else DebitSum(entries[..|entries| - 1], account) + LineDebits(entries[|entries| - 1].lines, account)
  }

  function CreditSum(entries: seq<Entry>, account: nat): nat {
    if entries == [] then 0
    else CreditSum(entries[..|entries| - 1], account) + LineCredits(entries[|entries| - 1].lines, account)
  }

  lemma {:induction false} LineSumsNet(lines: seq<Line>, account: nat)
    ensures Net(lines, On(account)) == LineDebits(lines, account) - LineCredits(lines, account)
  {
    if lines != [] { LineSumsNet(lines[..|lines| - 1], account); }
  }

  lemma {:induction false} SumsNet(entries: seq<Entry>, account: nat)
    ensures NetOfEntries(entries, On(account)) == DebitSum(entries, account) - CreditSum(entries, account)
  {
    if entries != [] {
      SumsNet(entries[..|entries| - 1], account);
      LineSumsNet(entries[|entries| - 1].lines, account);
    }
  }

  /** One row of the query that groups lines by account. */
  datatype SumRow = SumRow(account: Account, debit: nat, credit: nat)

  /** The rows of the query: accounts with some movement on either side. */
  function SumRows(chart: seq<Account>, entries: seq<Entry>, n: nat): seq<SumRow>
    requires n <= |chart|
  {
    if n == 0 then []
    else
      var row := SumRow(chart[n - 1], DebitSum(entries, n - 1), CreditSum(entries, n - 1));
      SumRows(chart, entries, n - 1) + if row.debit != 0 || row.credit != 0 then [row] else []
  }

  /** An account is listed exactly when something was booked on it, even if it nets to nothing. */
  lemma {:induction false} ListedIff(chart: seq<Account>, entries: seq<Entry>, n: nat, account: nat)
    requires account < n <= |chart|
    ensures SumRow(chart[account], DebitSum(entries, account), CreditSum(entries, account)) in SumRows(chart, entries, n) <==>
            DebitSum(entries, account) != 0 || CreditSum(entries, account) != 0
  {
    hide DebitSum, CreditSum;
    NoEmptyRows(chart, entries, n);
    if account < n - 1 { ListedIff(chart, entries, n - 1, account); }
  }

  lemma {:induction false} NoEmptyRows(chart: seq<Account>, entries: seq<Entry>, n: nat)
    requires n <= |chart|
    ensures forall row :: row in SumRows(chart, entries, n) ==> row.debit != 0 || row.credit != 0
  {
    hide DebitSum, CreditSum;
    if n > 0 { NoEmptyRows(chart, entries, n - 1); }
  }

  function NetTotal(rows: seq<SumRow>): int {
    if rows == [] then 0
    else NetTotal(rows[..|rows| - 1]) + rows[|rows| - 1].debit - rows[|rows| - 1].credit
  }

  /** Net of the entries over the accounts below `n`. */
  function AccountsNet(entries: seq<Entry>, n: nat): int {
    if n == 0 then 0 else AccountsNet(entries, n - 1) + NetOfEntries(entries, On(n - 1))
  }

  function LinesNet(lines: seq<Line>, n: nat): int {
    if n == 0 then 0 else LinesNet(lines, n - 1) + Net(lines, On(n - 1))
  }

  lemma {:induction false} LinesNetLast(lines: seq<Line>, n: nat)
    requires lines != []
    ensures var last := lines[|lines| - 1];
            LinesNet(lines, n) == LinesNet(lines[..|lines| - 1], n) + if last.account < n then Signed(last) else 0
  {
    if n > 0 { LinesNetLast(lines, n - 1); }
  }

  lemma {:induction false} LinesNetAll(lines: seq<Line>, n: nat)
    requires forall i :: 0 <= i < |lines| ==> lines[i].account < n
    ensures LinesNet(lines, n) == Debits(lines) - Credits(lines)
  {
    if lines == [] {
      LinesNetNone(n);
    } else {
      LinesNetLast(lines, n);
      LinesNetAll(lines[..|lines| - 1], n);
    }
  }

  lemma {:induction false} LinesNetNone(n: nat)
    ensures LinesNet([], n) == 0 && AccountsNet([], n) == 0
  {
    if n > 0 { LinesNetNone(n - 1); }
  }

  lemma {:induction false} AccountsNetLast(entries: seq<Entry>, n: nat)
    requires entries != []
    ensures AccountsNet(entries, n) == AccountsNet(entries[..|entries| - 1], n) + LinesNet(entries[|entries| - 1].lines, n)
  {
    if n > 0 { AccountsNetLast(entries, n - 1); }
  }

  ghost predicate AllBalanced(entries: seq<Entry>, accounts: nat) {
    forall i :: 0 <= i < |entries| ==>
      Balanced(entries[i].lines) && forall j :: 0 <= j < |entries[i].lines| ==> entries[i].lines[j].account < accounts
  }

  /** Balanced entries net to zero over the whole chart. */
  lemma {:induction false} ChartNetsToZero(entries: seq<Entry>, n: nat)
    requires AllBalanced(entries, n)
    ensures AccountsNet(entries, n) == 0
  {
    if entries == [] {
      LinesNetNone(n);
    } else {
      AccountsNetLast(entries, n);
      ChartNetsToZero(entries[..|entries| - 1], n);
      LinesNetAll(entries[|entries| - 1].lines, n);
    }
  }

  lemma {:induction false} RowsNet(chart: seq<Account>, entries: seq<Entry>, n: nat)
    requires n <= |chart|
    ensures NetTotal(SumRows(chart, entries, n)) == AccountsNet(entries, n)
  {
    if n > 0 {
      RowsNet(chart, entries, n - 1);
      SumsNet(entries, n - 1);
      var before := SumRows(chart, entries, n - 1);
      var rows := SumRows(chart, entries, n);
      if |rows| > |before| { assert rows[..|before|] == before; } else { assert rows == before; }
    }
  }

  // --------------------------------------------------------- trial balance

  datatype TrialRow = TrialRow(account: Account, debit: nat, credit: nat)

  datatype TrialBalance = TrialBalance(rows: seq<TrialRow>, totalDebit: nat, totalCredit: nat, balanced: bool)

  /** The net of an account on the side it falls on. */
  function TrialRowOf(row: SumRow): TrialRow {
    TrialRow(row.account, Max(row.debit - row.credit, 0), Max(row.credit - row.debit, 0))
  }

  function DebitTotal(rows: seq<TrialRow>): nat {
    if rows == [] then 0 else DebitTotal(rows[..|rows| - 1]) + rows[|rows| - 1].debit
  }

  function CreditTotal(rows: seq<TrialRow>): nat {
    if rows == [] then 0 else CreditTotal(rows[..|rows| - 1]) + rows[|rows| - 1].credit
  }

  lemma EmptyTotals()
    ensures DebitTotal([]) == 0 && CreditTotal([]) == 0
  {
  }

  lemma TotalsNext(rows: seq<TrialRow>, row: TrialRow)
    ensures DebitTotal(rows + [row]) == DebitTotal(rows) + row.debit
    ensures CreditTotal(rows + [row]) == CreditTotal(rows) + row.credit
  {
    assert (rows + [row])[..|rows|] == rows;
  }

  /** The flag is true exactly when the nets of all rows cancel. */
  method GetTrialBalance(rows: seq<SumRow>) returns (report: TrialBalance)
    ensures |report.rows| == |rows| && forall i :: 0 <= i < |rows| ==> report.rows[i] == TrialRowOf(rows[i])
    ensures forall i :: 0 <= i < |rows| ==>
              && report.rows[i].account == rows[i].account
              && report.rows[i].debit - report.rows[i].credit == rows[i].debit - rows[i].credit
              && (report.rows[i].debit == 0 || report.rows[i].credit == 0)
    ensures report.totalDebit == DebitTotal(report.rows) && report.totalCredit == CreditTotal(report.rows)
    ensures report.totalDebit - report.totalCredit == NetTotal(rows)
    ensures report.balanced <==> NetTotal(rows) == 0
  {
    hide DebitTotal, CreditTotal;
    assert DebitTotal([]) == 0 && CreditTotal([]) == 0 by { EmptyTotals(); }
    var trialRows: seq<TrialRow> := [];
    var totalDebit: nat, totalCredit: nat := 0, 0;
    for n := 0 to |rows|
      invariant |trialRows| == n && forall i :: 0 <= i < n ==> trialRows[i] == TrialRowOf(rows[i])
      invariant totalDebit - totalCredit == NetTotal(rows[..n])
      invariant totalDebit == DebitTotal(trialRows) && totalCredit == CreditTotal(trialRows)
    {
      var net := rows[n].debit - rows[n].credit;
      var debit := if net > 0 then net else 0;
      var credit := if net < 0 then -net else 0;
      totalDebit := totalDebit + debit;
      totalCredit := totalCredit + credit;
      TotalsNext(trialRows, TrialRow(rows[n].account, debit, credit));
      trialRows := trialRows + [TrialRow(rows[n].account, debit, credit)];
      assert rows[..n + 1][..n] == rows[..n];
    }
    assert rows[..|rows|] == rows;
    report := TrialBalance(trialRows, totalDebit, totalCredit, totalDebit == totalCredit);
  }

  // --------------------------------------------------------- balance sheet

  datatype StatementLine = StatementLine(code: string, amount: int)

  datatype BalanceSheet = BalanceSheet(
    assets: seq<StatementLine>, liabilities: seq<StatementLine>, equity: seq<StatementLine>,
    totalAssets: int, totalLiabilities: int, totalEquity: int, netIncome: int, balanced: bool)

  datatype IncomeStatement = IncomeStatement(
    income: seq<StatementLine>, expenses: seq<StatementLine>, totalIncome: int, totalExpenses: int, netIncome: int)

  /** The natural balance of the rows of one kind: debit side for assets and expenses. */
  function KindTotal(rows: seq<SumRow>, kind: AccountKind): int {
    if rows == [] then 0
    else
      var last := rows[|rows| - 1];
      KindTotal(rows[..|rows| - 1], kind) + if last.account.kind == kind then NaturalBalance(last) else 0
  }

  function NaturalBalance(row: SumRow): int {
    if DebitNormal(row.account.kind) then row.debit - row.credit else row.credit - row.debit
  }

  predicate DebitNormal(kind: AccountKind) {
    kind == Asset || kind == Expense
  }

  function KindLines(rows: seq<SumRow>, kind: AccountKind): seq<StatementLine> {
    if rows == [] then []
    else
      var last := rows[|rows| - 1];
      KindLines(rows[..|rows| - 1], kind)
      + if last.account.kind == kind then [StatementLine(last.account.code, NaturalBalance(last))] else []
  }

  function LineTotal(lines: seq<StatementLine>): int {
    if lines == [] then 0 else LineTotal(lines[..|lines| - 1]) + lines[|lines| - 1].amount
  }

  lemma LineTotalNext(lines: seq<StatementLine>, line: StatementLine)
    ensures LineTotal(lines + [line]) == LineTotal(lines) + line.amount
  {
    assert (lines + [line])[..|lines|] == lines;
  }

  /** The lines listed for a kind sum to its total. */
  lemma {:induction false} KindLinesSum(rows: seq<SumRow>, kind: AccountKind)
    ensures LineTotal(KindLines(rows, kind)) == KindTotal(rows, kind)
  {
    if rows != [] {
      var before, lines := KindLines(rows[..|rows| - 1], kind), KindLines(rows, kind);
      KindLinesSum(rows[..|rows| - 1], kind);
      if |lines| > |before| { assert lines[..|before|] == before; } else { assert lines == before; }
    }
  }

  /** Net debit of the entries over the accounts of one kind below `n`. */
  function KindNet(chart: seq<Account>, entries: seq<Entry>, kind: AccountKind, n: nat): int
    requires n <= |chart|
  {
    if n == 0 then 0
    else KindNet(chart, entries, kind, n - 1) + if chart[n - 1].kind == kind then NetOfEntries(entries, On(n - 1)) else 0
  }

  /**
   * A report shows what the ledger holds on the accounts of a kind: debits less
   * credits for assets and expenses, credits less debits for the other kinds. The
   * accounts the query leaves out have nothing to show.
   */
  lemma {:induction false} KindTotalIsLedger(chart: seq<Account>, entries: seq<Entry>, kind: AccountKind, n: nat)
    requires n <= |chart|
    ensures KindTotal(SumRows(chart, entries, n), kind) ==
            if kind == Asset || kind == Expense then KindNet(chart, entries, kind, n) else -KindNet(chart, entries, kind, n)
  {
    if n > 0 {
      KindTotalIsLedger(chart, entries, kind, n - 1);
      SumsNet(entries, n - 1);
      KindTotalNext(chart, entries, kind, n);
      hide KindTotal, SumRows, NetOfEntries, DebitSum, CreditSum, On;
    }
  }

  /** An account without movements adds nothing, listed or not. */
  lemma KindTotalNext(chart: seq<Account>, entries: seq<Entry>, kind: AccountKind, n: nat)
    requires 0 < n <= |chart|
    ensures var net := DebitSum(entries, n - 1) - CreditSum(entries, n - 1);
            KindTotal(SumRows(chart, entries, n), kind) == KindTotal(SumRows(chart, entries, n - 1), kind)
            + if chart[n - 1].kind != kind then 0 else if kind == Asset || kind == Expense then net else -net
  {
    hide DebitSum, CreditSum;
    var before, rows := SumRows(chart, entries, n - 1), SumRows(chart, entries, n);
    if |rows| > |before| { assert rows[..|before|] == before; } else { assert rows == before; }
    hide SumRows;
  }

  /** Every row is of one of the five kinds, so the kinds partition the net. */
  lemma {:induction false} KindsPartition(rows: seq<SumRow>)
    ensures KindTotal(rows, Asset) + KindTotal(rows, Expense)
            - KindTotal(rows, Liability) - KindTotal(rows, Equity) - KindTotal(rows, Income) == NetTotal(rows)
  {
    if rows != [] { KindsPartition(rows[..|rows| - 1]); }
  }

  /** Assets equal liabilities plus equity with the result exactly when the rows cancel. */
  method GetBalanceSheet(rows: seq<SumRow>) returns (sheet: BalanceSheet)
    ensures sheet.assets == KindLines(rows, Asset) && sheet.totalAssets == KindTotal(rows, Asset)
    ensures sheet.liabilities == KindLines(rows, Liability) && sheet.totalLiabilities == KindTotal(rows, Liability)
    ensures sheet.netIncome == KindTotal(rows, Income) - KindTotal(rows, Expense)
    ensures sheet.totalEquity == KindTotal(rows, Equity) + sheet.netIncome
    ensures sheet.equity == KindLines(rows, Equity) + if sheet.netIncome != 0 then [StatementLine("3900", sheet.netIncome)] else []
    ensures sheet.balanced <==> sheet.totalAssets == sheet.totalLiabilities + sheet.totalEquity
    ensures sheet.balanced <==> NetTotal(rows) == 0
    ensures LineTotal(sheet.assets) == sheet.totalAssets && LineTotal(sheet.liabilities) == sheet.totalLiabilities
    ensures LineTotal(sheet.equity) == sheet.totalEquity
  {
    hide LineTotal;
    KindLinesSum(rows, Asset);
    KindLinesSum(rows, Liability);
    KindLinesSum(rows, Equity);
    var assets, liabilities, equity: seq<StatementLine> := [], [], [];
    var totalAssets, totalLiabilities, totalEquity, netIncome := 0, 0, 0, 0;
    for n := 0 to |rows|
      invariant assets == KindLines(rows[..n], Asset) && totalAssets == KindTotal(rows[..n], Asset)
      invariant liabilities == KindLines(rows[..n], Liability) && totalLiabilities == KindTotal(rows[..n], Liability)
      invariant equity == KindLines(rows[..n], Equity) && totalEquity == KindTotal(rows[..n], Equity)
      invariant netIncome == KindTotal(rows[..n], Income) - KindTotal(rows[..n], Expense)
    {
      assert rows[..n + 1][..n] == rows[..n];
      var row := rows[n];
      match row.account.kind {
        case Asset =>
          var amount := row.debit - row.credit;
          assets := assets + [StatementLine(row.account.code, amount)];
          totalAssets := totalAssets + amount;
        case Liability =>
          var amount := row.credit - row.debit;
          liabilities := liabilities + [StatementLine(row.account.code, amount)];
          totalLiabilities := totalLiabilities + amount;
        case Equity =>
          var amount := row.credit - row.debit;
          equity := equity + [StatementLine(row.account.code, amount)];
          totalEquity := totalEquity + amount;
        case Income =>
          netIncome := netIncome + (row.credit - row.debit);
        case Expense =>
          netIncome := netIncome - (row.debit - row.credit);
      }
    }
    assert rows[..|rows|] == rows;
    KindsPartition(rows);
    var withIncome := totalEquity + netIncome;
    if netIncome != 0 {
      LineTotalNext(equity, StatementLine("3900", netIncome));
      equity := equity + [StatementLine("3900", netIncome)];
    }
    sheet := BalanceSheet(assets, liabilities, equity, totalAssets, totalLiabilities, withIncome, netIncome,
                          totalAssets == totalLiabilities + withIncome);
  }

  method GetIncomeStatement(rows: seq<SumRow>) returns (statement: IncomeStatement)
    ensures statement.income == KindLines(rows, Income) && statement.totalIncome == KindTotal(rows, Income)
    ensures statement.expenses == KindLines(rows, Expense) && statement.totalExpenses == KindTotal(rows, Expense)
    ensures statement.netIncome == KindTotal(rows, Income) - KindTotal(rows, Expense)
    ensures LineTotal(statement.income) == statement.totalIncome && LineTotal(statement.expenses) == statement.totalExpenses
  {
    hide LineTotal;
    KindLinesSum(rows, Income);
    KindLinesSum(rows, Expense);
    var income, expenses: seq<StatementLine> := [], [];
    var totalIncome, totalExpenses := 0, 0;
    for n := 0 to |rows|
      invariant income == KindLines(rows[..n], Income) && totalIncome == KindTotal(rows[..n], Income)
      invariant expenses == KindLines(rows[..n], Expense) && totalExpenses == KindTotal(rows[..n], Expense)
    {
      assert rows[..n + 1][..n] == rows[..n];
      var row := rows[n];
      if row.account.kind == Income {
        var amount := row.credit - row.debit;
        income := income + [StatementLine(row.account.code, amount)];
        totalIncome := totalIncome + amount;
      } else if row.account.kind == Expense {
        var amount := row.debit - row.credit;
        expenses := expenses + [StatementLine(row.account.code, amount)];
        totalExpenses := totalExpenses + amount;
      }
    }
    assert rows[..|rows|] == rows;
    statement := IncomeStatement(income, expenses, totalIncome, totalExpenses, totalIncome - totalExpenses);
  }

  // ------------------------------------------------- reports of sound books

  /** The entries a report keeps; any test on whole entries. */
  function Kept(entries: seq<Entry>, keep: Entry -> bool): seq<Entry> {
    if entries == [] then []
    else
      Kept(entries[..|entries| - 1], keep) + if keep(entries[|entries| - 1]) then [entries[|entries| - 1]] else []
  }

  lemma {:induction false} KeptBalanced(entries: seq<Entry>, keep: Entry -> bool, accounts: nat)
    requires AllBalanced(entries, accounts)
    ensures AllBalanced(Kept(entries, keep), accounts)
  {
    if entries != [] { KeptBalanced(entries[..|entries| - 1], keep, accounts); }
  }

  /**
   * For every reachable ledger and any filter that keeps or drops whole
   * entries, the rows cancel, so every report raises its `balanced` flag.
   */
  lemma ReportsBalance(b: Books, steps: seq<Step>, keep: Entry -> bool)
    requires Sound(b)
    ensures var after := Run(b, steps);
            NetTotal(SumRows(after.chart, Kept(after.entries, keep), |after.chart|)) == 0
  {
    var after := Run(b, steps);
    RunSound(b, steps);
    forall i | 0 <= i < |after.entries|
      ensures Balanced(after.entries[i].lines)
           && forall j :: 0 <= j < |after.entries[i].lines| ==> after.entries[i].lines[j].account < |after.chart|
    {
      assert EntrySound(after, after.entries[i]);
    }
    KeptBalanced(after.entries, keep, |after.chart|);
    ChartNetsToZero(Kept(after.entries, keep), |after.chart|);
    RowsNet(after.chart, Kept(after.entries, keep), |after.chart|);
  }

  /**
   * The grouping query joins entries by LEFT JOIN, so its sums run over every
   * line whatever the status: each account shows the entries still in force.
   */
  lemma UnfilteredSumsAreInForce(b: Books, account: nat)
    requires Sound(b) && account < |b.chart|
    ensures DebitSum(b.entries, account) - CreditSum(b.entries, account) ==
            SumOver(InForce(b, On(account)), Heads(b), |b.entries|)
  {
    SumsNet(b.entries, account);
    LedgerIsHeadsInForce(b, On(account));
  }

  ghost predicate Touches(e: Entry, account: nat) {
    exists j :: 0 <= j < |e.lines| && e.lines[j].account == account
  }

  lemma {:induction false} TouchingShows(lines: seq<Line>, account: nat)
    requires forall j :: 0 <= j < |lines| ==> OneSided(lines[j])
    ensures (LineDebits(lines, account) == 0 && LineCredits(lines, account) == 0) <==>
            forall j :: 0 <= j < |lines| ==> lines[j].account != account
  {
    if lines != [] {
      var before := lines[..|lines| - 1];
      TouchingShows(before, account);
      if forall j :: 0 <= j < |before| ==> before[j].account != account {
        assert forall j :: 0 <= j < |before| ==> lines[j] == before[j];
      } else {
        var j :| 0 <= j < |before| && before[j].account == account;
        assert lines[j].account == account;
      }
    }
  }

  lemma KeptSums(entries: seq<Entry>, keep: Entry -> bool, account: nat)
    requires entries != []
    ensures var last := entries[|entries| - 1]; var kept := Kept(entries[..|entries| - 1], keep);
            && DebitSum(Kept(entries, keep), account) ==
                 DebitSum(kept, account) + (if keep(last) then LineDebits(last.lines, account) else 0)
            && CreditSum(Kept(entries, keep), account) ==
                 CreditSum(kept, account) + (if keep(last) then LineCredits(last.lines, account) else 0)
  {
    var last := entries[|entries| - 1];
    var kept := Kept(entries[..|entries| - 1], keep);
    if keep(last) {
      assert Kept(entries, keep) == kept + [last];
      assert (kept + [last])[..|kept|] == kept;
    } else {
      assert Kept(entries, keep) == kept;
    }
  }

  /**
   * The documented reading of the trial balance, only the kept entries, agrees
   * with the unfiltered sums on an account exactly when no dropped entry touches it.
   */
  lemma {:induction false} ReadingsAgreeIff(entries: seq<Entry>, keep: Entry -> bool, account: nat)
    requires forall i :: 0 <= i < |entries| ==> Balanced(entries[i].lines)
    ensures DebitSum(Kept(entries, keep), account) <= DebitSum(entries, account)
    ensures CreditSum(Kept(entries, keep), account) <= CreditSum(entries, account)
    ensures (DebitSum(Kept(entries, keep), account) == DebitSum(entries, account)
             && CreditSum(Kept(entries, keep), account) == CreditSum(entries, account)) <==>
            forall i :: 0 <= i < |entries| && !keep(entries[i]) ==> !Touches(entries[i], account)
  {
    if entries != [] {
      var before := entries[..|entries| - 1];
      var last := entries[|entries| - 1];
      ReadingsAgreeIff(before, keep, account);
      TouchingShows(last.lines, account);
      KeptSums(entries, keep, account);
      assert forall i :: 0 <= i < |before| ==> entries[i] == before[i];
      assert !Touches(last, account) <==> forall j :: 0 <= j < |last.lines| ==> last.lines[j].account != account;
      if forall i :: 0 <= i < |entries| && !keep(entries[i]) ==> !Touches(entries[i], account) {
        assert forall i :: 0 <= i < |before| && !keep(before[i]) ==> !Touches(before[i], account);
      }
    }
  }

  /** An entry of January shows in a report of February as the query is written. */
  lemma JanuaryShowsInFebruary()
    ensures var e := Entry("JE-1", Civil(2024, 1, 15), "", None, None, Cash, Posted, None,
                           [Line(0, UNTAGGED, 100, 0, None), Line(1, UNTAGGED, 0, 100, None)]);
            var february := (entry: Entry) => entry.date.month == 2;
            Balanced(e.lines) && DebitSum(Kept([e], february), 0) == 0 && DebitSum([e], 0) == 100
  {
    var lines := [Line(0, UNTAGGED, 100, 0, None), Line(1, UNTAGGED, 0, 100, None)];
    var e := Entry("JE-1", Civil(2024, 1, 15), "", None, None, Cash, Posted, None, lines);
    assert lines[..1] == [lines[0]] && lines[..1][..0] == [] && [e][..0] == [];
    assert LineDebits(lines[..1], 0) == 100;
    assert Debits(lines[..1]) == 100 && Credits(lines[..1]) == 0;
  }
}
