/**
 * The tables of one tenant schema, updated in place one statement at a time.
 * The services hold these tables and bracket their statements in transactions:
 * a rollback puts back what the tables held when the transaction started.
 */
module TenantTables {
  import opened Prelude
  import opened Journal
  import opened Ledger
  import opened Periods
  import O = Outbox
  import P = Payments

  class Tables {
    var chart: seq<Account>
    var entries: seq<Entry>
    var periods: map<(int, int), Period>
    var payments: seq<P.Payment>
    var refunds: seq<P.Refund>
    var outbox: seq<O.OutboxRow>

    constructor (chart: seq<Account>)
      ensures GetBooks() == Books(chart, [], map[]) && GetDesk() == P.Desk([], [], [])
    {
      this.chart := chart;
      entries, periods := [], map[];
      payments, refunds, outbox := [], [], [];
    }

    function GetBooks(): Books
      reads this
    {
      Books(chart, entries, periods)
    }

    function GetDesk(): P.Desk
      reads this
    {
      P.Desk(payments, refunds, outbox)
    }

    /** Refused for a date that does not exist or a source another entry has. */
    method InsertEntry(header: Entry) returns (fault: Option<LedgerError>)
      modifies this`entries
      ensures fault ==
              if !Exists(header.date) then Some(DateRejected)
              else if FindSource(old(entries), header.sourceModule, header.sourceId) < |old(entries)| then Some(DuplicateSource)
              else None
      ensures entries == if fault.None? then old(entries) + [header] else old(entries)
    {
      if !Exists(header.date) {
        return Some(DateRejected);
      }
      if FindSource(entries, header.sourceModule, header.sourceId) < |entries| {
        return Some(DuplicateSource);
      }
      entries := entries + [header];
      return None;
    }

    method InsertLine(entryId: nat, line: Line)
      requires 1 <= entryId <= |entries|
      modifies this`entries
      ensures entries == old(entries)[entryId - 1 := old(entries)[entryId - 1].(lines := old(entries)[entryId - 1].lines + [line])]
    {
      var entry := entries[entryId - 1];
      entries := entries[entryId - 1 := entry.(lines := entry.lines + [line])];
    }

    method MarkReversed(entryId: nat, reversalId: nat)
      requires 1 <= entryId <= |entries|
      modifies this`entries
      ensures entries == old(entries)[entryId - 1 := old(entries)[entryId - 1].(status := Reversed, reversedBy := Some(reversalId))]
    {
      entries := entries[entryId - 1 := entries[entryId - 1].(status := Reversed, reversedBy := Some(reversalId))];
    }
  }
}
