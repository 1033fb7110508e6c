/** The movements of one account with a running balance (getGeneralLedger). */
module GeneralLedger {
  import opened Prelude
  import opened Journal
  import opened Reports

  datatype Movement = Movement(entry: nat, day: int, debit: nat, credit: nat, memo: Option<string>)

  datatype LedgerLine = LedgerLine(movement: Movement, balance: int)

  datatype GeneralLedger = GeneralLedger(
    kind: Option<AccountKind>, openingBalance: int, closingBalance: int, lines: seq<LedgerLine>)

  function Sign(kind: AccountKind): int {
    if DebitNormal(kind) then 1 else -1
  }

  predicate IsPosted(e: Entry) { e.status == Posted }

  function Before(from: Option<int>): Entry -> bool {
    e => IsPosted(e) && from.Some? && Serial(e.date) < from.value
  }

  function Within(from: Option<int>, to: Option<int>): Entry -> bool {
    e => IsPosted(e) && (from.None? || Serial(e.date) >= from.value) && (to.None? || Serial(e.date) <= to.value)
  }

  /** Everything a query has accounted for at its end. */
  function Covered(from: Option<int>, to: Option<int>): Entry -> bool {
    e => Before(from)(e) || Within(from, to)(e)
  }

  function LineMovements(lines: seq<Line>, account: nat, entry: nat, day: int): seq<Movement> {
    if lines == [] then []
    else
      var last := lines[|lines| - 1];
      LineMovements(lines[..|lines| - 1], account, entry, day)
      + if last.account == account then [Movement(entry, day, last.debit, last.credit, last.memo)] else []
  }

  /** The lines of the account in the kept entries, in the order of the entries. */
  function Movements(entries: seq<Entry>, account: nat, keep: Entry -> bool): seq<Movement> {
    if entries == [] then []
    else
      var last := entries[|entries| - 1];
      Movements(entries[..|entries| - 1], account, keep)
      + if keep(last) then LineMovements(last.lines, account, |entries| - 1, Serial(last.date)) else []
  }

  /** What `ORDER BY entry_date, id` may return: lines of one entry come in any order. */
  ghost predicate IsOrderedResult(rows: seq<Movement>, query: seq<Movement>) {
    && multiset(rows) == multiset(query)
    && forall i, j :: 0 <= i < j < |rows| ==>
         rows[i].day < rows[j].day || (rows[i].day == rows[j].day && rows[i].entry <= rows[j].entry)
  }

  function MovementsNet(rows: seq<Movement>): int {
    if rows == [] then 0
    else MovementsNet(rows[..|rows| - 1]) + rows[|rows| - 1].debit - rows[|rows| - 1].credit
  }

  /** Signed sum of the kept entries on an account. */
  function KeptNet(entries: seq<Entry>, account: nat, keep: Entry -> bool): int {
    NetOfEntries(Kept(entries, keep), On(account))
  }

  lemma {:induction false} MovementsNetAppend(a: seq<Movement>, b: seq<Movement>)
    ensures MovementsNet(a + b) == MovementsNet(a) + MovementsNet(b)
  {
    if b == [] {
      assert a + b == a;
    } else {
      MovementsNetAppend(a, b[..|b| - 1]);
      assert (a + b)[..|a + b| - 1] == a + b[..|b| - 1];
    }
  }

  lemma {:induction false} LineMovementsNet(lines: seq<Line>, account: nat, entry: nat, day: int)
    ensures MovementsNet(LineMovements(lines, account, entry, day)) == Net(lines, On(account))
  {
    if lines != [] {
      var before := lines[..|lines| - 1];
      LineMovementsNet(before, account, entry, day);
      var last := lines[|lines| - 1];
      MovementsNetAppend(LineMovements(before, account, entry, day),
                         if last.account == account then [Movement(entry, day, last.debit, last.credit, last.memo)] else []);
    }
  }

  /** The query loses no line and invents none: its net is the net of the kept entries. */
  lemma {:induction false} QueryNet(entries: seq<Entry>, account: nat, keep: Entry -> bool)
    ensures MovementsNet(Movements(entries, account, keep)) == KeptNet(entries, account, keep)
  {
    if entries != [] {
      hide Serial;
      var before := entries[..|entries| - 1];
      var last := entries[|entries| - 1];
      QueryNet(before, account, keep);
      var added := if keep(last) then LineMovements(last.lines, account, |entries| - 1, Serial(last.date)) else [];
      MovementsNetAppend(Movements(before, account, keep), added);
      LineMovementsNet(last.lines, account, |entries| - 1, Serial(last.date));
      KeptLast(entries, account, keep);
    }
  }

  /** The order of the rows does not change their net. */
  lemma {:induction false} OrderIrrelevant(a: seq<Movement>, b: seq<Movement>)
    requires multiset(a) == multiset(b)
    ensures MovementsNet(a) == MovementsNet(b)
    decreases |a|
  {
    if a == [] {
      assert |multiset(b)| == 0;
    } else {
      var last := a[|a| - 1];
      var rest := a[..|a| - 1];
      assert a == rest + [last];
      assert last in multiset(b);
      var k :| 0 <= k < |b| && b[k] == last;
      RemoveAt(b, k);
      assert multiset(rest) == multiset(a) - multiset{last};
      hide MovementsNet;
      OrderIrrelevant(rest, b[..k] + b[k + 1..]);
      AppendOne(rest, last);
    }
  }

  lemma AppendOne(rows: seq<Movement>, row: Movement)
    ensures MovementsNet(rows + [row]) == MovementsNet(rows) + row.debit - row.credit
  {
    assert (rows + [row])[..|rows|] == rows;
  }

  lemma RemoveAt(rows: seq<Movement>, k: nat)
    requires k < |rows|
    ensures var rest := rows[..k] + rows[k + 1..];
            && multiset(rest) == multiset(rows) - multiset{rows[k]}
            && MovementsNet(rows) == MovementsNet(rest) + rows[k].debit - rows[k].credit
  {
    var front, back := rows[..k], rows[k + 1..];
    assert rows == (front + [rows[k]]) + back;
    MovementsNetAppend(front + [rows[k]], back);
    AppendOne(front, rows[k]);
    MovementsNetAppend(front, back);
  }

  /** Opening and movements cover disjoint entries. */
  lemma {:induction false} OpeningPlusMovements(entries: seq<Entry>, account: nat, from: Option<int>, to: Option<int>)
    ensures KeptNet(entries, account, Before(from)) + KeptNet(entries, account, Within(from, to)) ==
            KeptNet(entries, account, Covered(from, to))
  {
    if entries != [] {
      hide Serial;
      OpeningPlusMovements(entries[..|entries| - 1], account, from, to);
      KeptLast(entries, account, Before(from));
      KeptLast(entries, account, Within(from, to));
      KeptLast(entries, account, Covered(from, to));
    }
  }

  lemma KeptLast(entries: seq<Entry>, account: nat, keep: Entry -> bool)
    requires entries != []
    ensures KeptNet(entries, account, keep) ==
            KeptNet(entries[..|entries| - 1], account, keep)
            + if keep(entries[|entries| - 1]) then Net(entries[|entries| - 1].lines, On(account)) else 0
  {
    var kept := Kept(entries[..|entries| - 1], keep);
    var last := entries[|entries| - 1];
    if keep(last) {
      assert Kept(entries, keep) == kept + [last];
      assert (kept + [last])[..|kept|] == kept;
    } else {
      assert Kept(entries, keep) == kept;
    }
  }

  /** Only posted entries are shown, by their dates: before the range, in it, or either. */
  lemma ShownByDate(e: Entry, from: Option<int>, to: Option<int>)
    ensures Before(from)(e) <==> e.status == Posted && from.Some? && Serial(e.date) < from.value
    ensures Within(from, to)(e) <==>
            e.status == Posted && (from.Some? ==> from.value <= Serial(e.date)) && (to.Some? ==> Serial(e.date) <= to.value)
    ensures (from.Some? && to.Some? ==> from.value <= to.value + 1) ==>
              (Covered(from, to)(e) <==> e.status == Posted && (to.Some? ==> Serial(e.date) <= to.value))
  {
    hide Serial;
  }

  /** The position of the account with a code. */
  function Find(chart: seq<Account>, code: string, start: nat := 0): (k: nat)
    requires start <= |chart|
    ensures start <= k <= |chart|
    ensures k < |chart| ==> chart[k].code == code
    ensures forall i :: start <= i < k ==> chart[i].code != code
    decreases |chart| - start
  {
    if start == |chart| || chart[start].code == code then start else Find(chart, code, start + 1)
  }

  /**
   * Each running balance is the opening balance plus the signed prefix of the
   * movements, and the closing balance the signed sum of all that was covered.
   */
  method GetGeneralLedger(chart: seq<Account>, entries: seq<Entry>, code: string, from: Option<int>, to: Option<int>,
                          movementRows: seq<Movement>)
    returns (report: GeneralLedger)
    requires var a := Find(chart, code);
             a < |chart| ==> IsOrderedResult(movementRows, Movements(entries, a, Within(from, to)))
    ensures var a := Find(chart, code);
            a == |chart| ==> report == GeneralLedger(None, 0, 0, [])
    ensures var a := Find(chart, code);
            a < |chart| ==>
              var sign := Sign(chart[a].kind);
              && report.kind == Some(chart[a].kind)
              && report.openingBalance == sign * KeptNet(entries, a, Before(from))
              && report.closingBalance == sign * KeptNet(entries, a, Covered(from, to))
              && |report.lines| == |movementRows|
              && forall i :: 0 <= i < |movementRows| ==>
                   && report.lines[i].movement == movementRows[i]
                   && report.lines[i].balance == report.openingBalance + sign * MovementsNet(movementRows[..i + 1])
    ensures var a := Find(chart, code);
            a < |chart| ==>
              var debits, credits := DebitSum(Kept(entries, Covered(from, to)), a), CreditSum(Kept(entries, Covered(from, to)), a);
              report.closingBalance == if chart[a].kind == Asset || chart[a].kind == Expense then debits - credits else credits - debits
  {
    hide Serial;
    var a := Find(chart, code);
    if a == |chart| {
      return GeneralLedger(None, 0, 0, []);
    }
    var sign := Sign(chart[a].kind);
    var opening := if from.Some? then KeptNet(entries, a, Before(from)) else 0;
    NothingBeforeNone(entries, a);
    var balance := sign * opening;
    var openingBalance := balance;
    var lines: seq<LedgerLine> := [];
    for n := 0 to |movementRows|
      invariant |lines| == n
      invariant balance == openingBalance + sign * MovementsNet(movementRows[..n])
      invariant forall i :: 0 <= i < n ==>
                  lines[i].movement == movementRows[i]
                  && lines[i].balance == openingBalance + sign * MovementsNet(movementRows[..i + 1])
    {
      assert movementRows[..n + 1][..n] == movementRows[..n];
      balance := balance + sign * (movementRows[n].debit - movementRows[n].credit);
      lines := lines + [LedgerLine(movementRows[n], balance)];
    }
    assert movementRows[..|movementRows|] == movementRows;
    OrderIrrelevant(movementRows, Movements(entries, a, Within(from, to)));
    QueryNet(entries, a, Within(from, to));
    OpeningPlusMovements(entries, a, from, to);
    SumsNet(Kept(entries, Covered(from, to)), a);
    report := GeneralLedger(Some(chart[a].kind), openingBalance, balance, lines);
  }

  lemma {:induction false} NothingBeforeNone(entries: seq<Entry>, account: nat)
    ensures KeptNet(entries, account, Before(None)) == 0
  {
    if entries != [] {
      NothingBeforeNone(entries[..|entries| - 1], account);
      KeptLast(entries, account, Before(None));
    }
  }

  lemma NextDaySplit(e: Entry, from: Option<int>, to: int)
    requires from.None? || from.value <= to + 1
    ensures Covered(from, Some(to))(e) == Before(Some(to + 1))(e)
  {
    hide Serial;
    var day := Serial(e.date);
    assert Before(from)(e) == (IsPosted(e) && from.Some? && day < from.value);
    assert Within(from, Some(to))(e) == (IsPosted(e) && (from.None? || day >= from.value) && day <= to);
    assert Before(Some(to + 1))(e) == (IsPosted(e) && day < to + 1);
  }

  /**
   * The closing of a range is the opening of the query that starts on the next
   * day, for a range that is not empty by more than its ends touching.
   */
  lemma {:induction false} ClosingIsNextOpening(entries: seq<Entry>, account: nat, from: Option<int>, to: int)
    requires from.None? || from.value <= to + 1
    ensures KeptNet(entries, account, Covered(from, Some(to))) == KeptNet(entries, account, Before(Some(to + 1)))
  {
    if entries != [] {
      hide Serial;
      ClosingIsNextOpening(entries[..|entries| - 1], account, from, to);
      var last := entries[|entries| - 1];
      NextDaySplit(last, from, to);
      KeptLast(entries, account, Covered(from, Some(to)));
      KeptLast(entries, account, Before(Some(to + 1)));
    }
  }
}
