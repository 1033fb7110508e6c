/** The links from payments and refunds back into the ledger. */
module PostingLinks {
  import opened Prelude
  import O = Outbox
  import P = Payments
  import opened Posting
  import opened Journal
  import opened Ledger
  import L = LedgerRuns
  import H = LedgerHistory
  import opened PaymentSystem
  import opened SystemInvariant
  import opened SystemSteps
  import opened Reconciliation

  /** A link names an entry of the ledger with the source of its own row. */
  ghost predicate Links(entries: seq<Entry>, link: Option<nat>, family: string, id: nat) {
    link.Some? ==> 1 <= link.value <= |entries| && IsEntryFor(entries[link.value - 1], family, id)
  }

  ghost predicate PaymentLinked(entries: seq<Entry>, p: P.Payment, id: nat) {
    (p.accounting == P.AccountingPosted ==> p.journalEntryId.Some?) && Links(entries, p.journalEntryId, PAYMENTS, id)
  }

  ghost predicate RefundLinked(entries: seq<Entry>, r: P.Refund, id: nat) {
    (r.posted ==> r.journalEntryId.Some?) && Links(entries, r.journalEntryId, REFUNDS, id)
  }

  ghost predicate AllLinked(d: P.Desk, entries: seq<Entry>) {
    && (forall k :: 0 <= k < |d.payments| ==> PaymentLinked(entries, d.payments[k], k + 1))
    && (forall k :: 0 <= k < |d.refunds| ==> RefundLinked(entries, d.refunds[k], k + 1))
  }

  lemma LinksKept(before: Books, after: Books)
    requires H.Extends(after, before)
    ensures forall link: Option<nat>, family: string, id: nat ::
              Links(before.entries, link, family, id) ==> Links(after.entries, link, family, id)
  {
    forall link: Option<nat>, family: string, id: nat | Links(before.entries, link, family, id)
      ensures Links(after.entries, link, family, id)
    {
      if link.Some? { assert H.SameButStatus(after.entries[link.value - 1], before.entries[link.value - 1]); }
    }
  }

  lemma NoteLinks(s: System, t: Task)
    requires AllLinked(s.desk, s.books.entries) && TaskSound(s, t) && t.phase.Entered?
    ensures AllLinked(NoteEvent(s.desk, t.event.key.eventType, t.event.subject, t.phase.entryId), s.books.entries)
  {
    hide P.PaymentKey, P.RefundKey;
    assert P.APPROVED_EVENT[8] == 'a' && P.REFUND_EVENT[8] == 'r';
  }

  /** Requests create rows without a link or keep or clear the link they have. */
  lemma DeskLinks(s: System, step: Step)
    requires AllLinked(s.desk, s.books.entries) && !step.Note?
    ensures AllLinked(Apply(s, step).desk, s.books.entries)
  {
    hide Post, LoadEvent, O.Enqueue, O.Eligible, O.Apply, L.Apply, Links;
    NoLink(s.books.entries);
  }

  lemma NoLink(entries: seq<Entry>)
    ensures forall family: string, id: nat :: Links(entries, None, family, id)
  {
  }

  lemma ApplyLinks(s: System, step: Step)
    requires Inv(s) && AllLinked(s.desk, s.books.entries)
    ensures AllLinked(Apply(s, step).desk, Apply(s, step).books.entries)
  {
    var after := Apply(s, step);
    if step.Note? && Enabled(s, step) {
      NoteLinks(s, s.tasks[step.task]);
    } else {
      StepExtendsBooks(s, step);
      LinksKept(s.books, after.books);
      if step.Note? { assert after == s; } else { DeskLinks(s, step); }
      hide Apply, Inv, Links;
    }
  }

  lemma StepExtendsBooks(s: System, step: Step)
    ensures H.Extends(Apply(s, step).books, s.books)
  {
    StepExtendsDesk(s, step);
    hide Post, L.Apply;
    if step.Enter? && Enabled(s, step) {
      EnterExtends(s, step.task, step.number);
    } else if step.LedgerStep? {
      H.ApplyExtends(s.books, step.step);
    }
  }

  lemma EnterExtends(s: System, task: nat, number: string)
    requires Enabled(s, Enter(task, number))
    ensures H.Extends(Apply(s, Enter(task, number)).books, s.books)
  {
    H.ApplyExtends(s.books, L.PostStep(s.tasks[task].phase.input, number));
  }

  /**
   * In every run a payment or refund marked as posted names the journal entry
   * that carries its own source.
   */
  lemma {:induction false} MarksAreTrue(start: System, steps: seq<Step>)
    requires Initial(start)
    ensures AllLinked(Run(start, steps).desk, Run(start, steps).books.entries)
  {
    if steps != [] {
      var before := Run(start, steps[..|steps| - 1]);
      MarksAreTrue(start, steps[..|steps| - 1]);
      InitialInv(start);
      RunInv(start, steps[..|steps| - 1]);
      hide Inv, AllLinked;
      ApplyLinks(before, steps[|steps| - 1]);
    }
  }
}
