/** Owner statements as the services write and post them. */
module StatementServices {
  import opened Prelude
  import opened Journal
  import opened Ledger
  import opened OwnerStatements
  import O = Outbox
  import M = StatementRuns
  import opened TenantTables
  import opened LedgerService
  import opened OutboxServices

  datatype StatementAccounting = Pending | StatementPosted | TransferPosted

  datatype Row = Row(statement: Statement, accounting: StatementAccounting, entryId: Option<nat>, transferEntryId: Option<nat>)

  /** The identifier of a statement is its position plus one. */
  class StatementTable {
    var rows: seq<Row>

    constructor ()
      ensures rows == []
    {
      rows := [];
    }
  }

  predicate SameKey(s: Statement, t: Statement) {
    s.ownerId == t.ownerId && s.propertyId == t.propertyId && s.year == t.year && s.month == t.month
  }

  /** One statement an owner, property and month, as the table's unique key demands. */
  predicate UniqueKeys(rows: seq<Row>) {
    forall i, j :: 0 <= i < j < |rows| ==> !SameKey(rows[i].statement, rows[j].statement)
  }

  function FindKey(rows: seq<Row>, key: Statement, from: nat := 0): (k: nat)
    requires from <= |rows|
    ensures from <= k <= |rows|
    ensures k < |rows| ==> SameKey(rows[k].statement, key)
    ensures forall i :: from <= i < k ==> !SameKey(rows[i].statement, key)
    decreases |rows| - from
  {
    if from == |rows| || SameKey(rows[from].statement, key) then from else FindKey(rows, key, from + 1)
  }

  /** The rows and the books as a state of the statement machine. */
  function Machine(rows: seq<Row>, books: Books): (s: M.State)
    ensures s.books == books && s.loaded == map[] && |s.rows| == |rows| && forall i :: 0 <= i < |rows| ==> s.rows[i] == Some(rows[i].statement)
  {
    M.State(seq(|rows|, i requires 0 <= i < |rows| => Some(rows[i].statement)), books, map[])
  }

  const GENERATED_EVENT := "owner_statement.generated"

  class OwnerStatementsService {
    const db: Tables
    const table: StatementTable
    const accountingOutbox: AccountingOutboxService

    constructor (db: Tables, table: StatementTable)
      ensures this.db == db && this.table == table && Valid()
    {
      this.db := db;
      this.table := table;
      accountingOutbox := new AccountingOutboxService(db);
    }

    predicate Valid() {
      accountingOutbox.db == db
    }

    /**
     * Creates the statement of a month and enqueues its posting; when there is
     * one already, replaces its amounts and enqueues nothing.
     */
    method CreateStatementFromPayment(ownerId: int, propertyId: int, year: int, month: int, gross: real, maintenance: int, pct: real)
      returns (id: nat)
      requires Valid() && UniqueKeys(table.rows)
      modifies table, db`outbox
      ensures UniqueKeys(table.rows) && 1 <= id <= |table.rows| && |old(table.rows)| <= |table.rows|
      ensures table.rows[id - 1].statement == Split(ownerId, propertyId, year, month, gross, maintenance, pct).(
                unitId := table.rows[id - 1].statement.unitId)
      ensures forall i :: 0 <= i < |old(table.rows)| && i != id - 1 ==> table.rows[i] == old(table.rows)[i]
      ensures id <= |old(table.rows)| ==>
                && |table.rows| == |old(table.rows)| && db.outbox == old(db.outbox)
                && table.rows[id - 1] == old(table.rows)[id - 1].(statement := table.rows[id - 1].statement)
      ensures var s := Split(ownerId, propertyId, year, month, gross, maintenance, pct);
              Machine(table.rows, db.GetBooks()) ==
              M.Apply(Machine(old(table.rows), old(db.GetBooks())),
                      if id > |old(table.rows)| then M.AddRow(s) else M.Replace(id, s.gross, s.maintenance, s.commission, s.net))
      ensures id > |old(table.rows)| ==>
                && |table.rows| == |old(table.rows)| + 1
                && db.outbox == O.Enqueue(old(db.outbox), O.EventKey(GENERATED_EVENT, "owner_statement", GeneratedSource(id)), id)
    {
      var dto := Split(ownerId, propertyId, year, month, gross, maintenance, pct);
      var k := FindKey(table.rows, dto);
      id := k + 1;
      if k == |table.rows| {
        table.rows := table.rows + [Row(dto, Pending, None, None)];
        accountingOutbox.Enqueue(O.EventKey(GENERATED_EVENT, "owner_statement", GeneratedSource(id)), id);
      } else {
        var updated := table.rows[k].statement.(
          gross := dto.gross, maintenance := dto.maintenance, commission := dto.commission, net := dto.net);
        table.rows := table.rows[k := table.rows[k].(statement := updated)];
      }
    }
  }

  class AccountingOwnerStatementPostingService {
    const db: Tables
    const table: StatementTable
    const ledger: AccountingLedgerService

    constructor (db: Tables, table: StatementTable)
      ensures this.db == db && this.table == table && Valid()
    {
      this.db := db;
      this.table := table;
      ledger := new AccountingLedgerService(db);
    }

    predicate Valid() {
      ledger.db == db && ledger.Valid()
    }

    /** Lines pushed one by one, as the amounts call for them. */
    method BuildLines(s: Statement) returns (lines: seq<LineInput>)
      requires GeneratedFault(s).None?
      ensures lines == GeneratedLines(s)
      ensures Acceptable(lines) <==> s.commission >= 0 && s.maintenance >= 0
    {
      lines := [GrossLine(s)];
      if s.commission > 0 {
        lines := lines + [CommissionLine(s)];
      }
      if s.net > 0 {
        lines := lines + [PayableLine(s)];
      }
      if s.maintenance > 0 {
        lines := lines + [MaintenanceLine(s)];
      }
      GeneratedAcceptableIff(s);
    }

    method PostGeneratedStatement(id: nat, number: string) returns (r: Result<Receipt, StatementError>)
      requires Valid()
      modifies db`entries, table
      ensures !(1 <= id <= |old(table.rows)|) ==> r == Err(NoSuchStatement)
      ensures 1 <= id <= |old(table.rows)| ==>
                var s := old(table.rows)[id - 1].statement;
                if GeneratedFault(s).Some? then r == Err(GeneratedFault(s).value)
                else
                  var outcome := Post(old(db.GetBooks()), GeneratedEntry(s, id), number);
                  && db.GetBooks() == outcome.books
                  && r == (if outcome.result.Ok? then Ok(outcome.result.value) else Err(Refused(outcome.result.error)))
      ensures Machine(table.rows, db.GetBooks()) ==
              M.Run(Machine(old(table.rows), old(db.GetBooks())), [M.LoadGenerated(0, id), M.Enter(0, number)])
      ensures r.Err? ==> db.entries == old(db.entries) && table.rows == old(table.rows)
      ensures r.Ok? ==>
                && 1 <= id <= |old(table.rows)|
                && table.rows == old(table.rows)[id - 1 := old(table.rows)[id - 1].(accounting := StatementPosted, entryId := Some(r.value.id))]
    {
      hide Post, GeneratedLines, M.Run;
      if id < 1 || id > |table.rows| {
        M.NoRowNoPosting(Machine(table.rows, db.GetBooks()), id, "", number);
        return Err(NoSuchStatement);
      }
      M.PostingIsRun(Machine(table.rows, db.GetBooks()), id, "", number);
      var s := table.rows[id - 1].statement;
      if s.gross <= 0 || s.net < 0 {
        return Err(BadAmounts);
      }
      if s.gross != s.commission + s.net + s.maintenance {
        return Err(DoesNotBalance);
      }
      var lines := BuildLines(s);
      var posted := ledger.PostEntry(GeneratedEntry(s, id).(lines := lines), number);
      if posted.Err? {
        return Err(Refused(posted.error));
      }
      table.rows := table.rows[id - 1 := table.rows[id - 1].(accounting := StatementPosted, entryId := Some(posted.value.id))];
      return Ok(posted.value);
    }

    method PostStatementTransfer(id: nat, today: string, number: string) returns (r: Result<Receipt, StatementError>)
      requires Valid()
      modifies db`entries, table
      ensures !(1 <= id <= |old(table.rows)|) ==> r == Err(NoSuchStatement)
      ensures 1 <= id <= |old(table.rows)| ==>
                var s := old(table.rows)[id - 1].statement;
                if s.net <= 0 then r == Err(NothingToTransfer)
                else
                  var outcome := Post(old(db.GetBooks()), TransferEntry(s, id, today), number);
                  && db.GetBooks() == outcome.books
                  && r == (if outcome.result.Ok? then Ok(outcome.result.value) else Err(Refused(outcome.result.error)))
      ensures Machine(table.rows, db.GetBooks()) ==
              M.Run(Machine(old(table.rows), old(db.GetBooks())), [M.LoadTransfer(0, id, today), M.Enter(0, number)])
      ensures r.Err? ==> db.entries == old(db.entries) && table.rows == old(table.rows)
      ensures r.Ok? ==>
                && 1 <= id <= |old(table.rows)|
                && table.rows == old(table.rows)[id - 1 := old(table.rows)[id - 1].(accounting := TransferPosted, transferEntryId := Some(r.value.id))]
    {
      hide Post, TransferLines, M.Run;
      if id < 1 || id > |table.rows| {
        M.NoRowNoPosting(Machine(table.rows, db.GetBooks()), id, today, number);
        return Err(NoSuchStatement);
      }
      M.PostingIsRun(Machine(table.rows, db.GetBooks()), id, today, number);
      var s := table.rows[id - 1].statement;
      if s.net <= 0 {
        return Err(NothingToTransfer);
      }
      var posted := ledger.PostEntry(TransferEntry(s, id, today), number);
      if posted.Err? {
        return Err(Refused(posted.error));
      }
      table.rows := table.rows[id - 1 := table.rows[id - 1].(accounting := TransferPosted, transferEntryId := Some(posted.value.id))];
      return Ok(posted.value);
    }
  }
}
