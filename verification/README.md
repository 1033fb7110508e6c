# Accounting core of the rental platform: a verified model

The platform runs one PostgreSQL schema per tenant. Payments, refunds and
statements are decided in transactions that also write rows of an accounting
outbox; workers claim those rows and post journal entries at least once; a
double-entry ledger removes duplicates, refuses closed months and supports
reversal; reports fold the ledger. This project models that pipeline, the
calendar arithmetic behind renewals and recurring expenses, and three smaller
cores (audit CSV, login lockout, refresh tokens), and proves what they promise
over all inputs, all interleavings and all reachable states.

How the modules fit together:

- `Prelude`, `Money`, `Calendar`: identifiers as text, half-up rounding to
  cents, and day numbers as `MakeDay` of ECMA-262 section 21.4.1 defines them.
- `Journal`, `Periods`, `Ledger`, `LedgerRuns`, `LedgerHistory`: tables of the
  ledger, posting and reversing as functions of the books, and the invariants
  and histories of every run. `Reports`, `GeneralLedger` fold them.
- `Outbox`, `Payments`, `Posting`, `PaymentSystem`: rows, requests and entries,
  and one state machine in which every transaction and every separate statement
  is a step. `SystemInvariant`, `SystemSteps`, `Reconciliation`, `EndToEnd`, `AccountTotals`,
  `PaymentStatuses`, `RefundConservation`, `PostingLinks` and `OutboxOwnership` prove what its runs keep.
  `Witnesses` holds short runs of one tenant in which a promise fails.
- `TenantTables`, `LedgerService`, `OutboxServices`, `PaymentServices`,
  `ReservationRefunds`, `StatementServices`, `RefreshTokenServices`: classes that
  update the tables in place, with loops, early returns and rollbacks, proved equal
  to those functions. `OutboxWorker` shows that a worker's pass is a run of the machine.
- `OwnerStatements`, `StatementRuns`, `LateFees`, `ExpensePayments`,
  `ContractRenewal`, `RecurringExpenses`, `AuditCsv`, `LoginLockout`, `LoginRuns`,
  `RefreshTokens`, `PasswordResets`: the remaining cores.

Amounts are whole cents; amounts that callers supply are exact decimals (`real`).
Random numbers (entry numbers, tokens), clocks and the results of SQL aggregates
over tables outside the model are parameters.

## Where the code does not do what is expected of it

- Five requests change payments or refunds without an outbox row: processor
  reports (src/payments/payment-webhook.service.ts:130-145), status changes by an
  administrator (src/payments/payment-status.service.ts:68-120), QR payments
  (src/payments/qr/qr-payment-processing.service.ts:104-131 and 187-213), refunds
  of a reservation (src/reservations/reservation-refund.service.ts:51-68 and
  112-122) and deletion (src/payments/payments.service.ts:176-199). All are steps
  of the machine. `EndToEnd.CashDifference` is the exact difference between cash in
  the ledger and in the tables in every run, `EndToEnd.DeskCountsIff` the exact
  condition per payment, `EndToEnd.WebhookGap` and `Witnesses.RefundsPassTheAmount`
  are runs, and `RefundConservation.OrdinaryPaymentReconciles` is the documented
  result for every payment such requests leave alone, whatever happens to others.
- A refund of a reservation ignores earlier refunds, so refunds can pass the
  amount: a payment of 100.00 ends with 150.00 refunded
  (`Witnesses.RefundsPassTheAmount`). `RefundConservation.RefundsWithinIff` says
  exactly when they do not; a full refund fits exactly when nothing was refunded
  before (`ReservationRefunds.FullRefundFitsIff`).
- REFUNDED does not mean refunded in full: reports, status changes and reservation
  refunds write it whatever was refunded (`Witnesses.ReportedRefundIsEarly`), and a
  status change, which reads without a lock and writes by identifier alone, can
  overwrite it after a full refund (`Witnesses.LateChangeUnmarks`).
  `RefundConservation.RefundedByHistory` gives the exact outcome of every run.
- The report query filters status and date in the ON clause of a LEFT JOIN
  (src/accounting/accounting-reports.service.ts:116-120), so its sums run over
  every line. `Reports.ReportsBalance` holds under both readings,
  `Reports.ReadingsAgreeIff` says when they agree (`Reports.JanuaryShowsInFebruary`
  is one entry on which they do not), and `Reports.UnfilteredSumsAreInForce` what
  the query really shows.
- Half a cent of gross and a net of the other sign make a statement that does
  not add up: `OwnerStatements.SplitAddsIff`, with `OwnerStatements.HalfCentIsLost`.
  The gross is a parameter of `createStatementFromPayment`, which nothing in the
  repository calls yet; the monthly job sums whole cents and is not affected. A
  negative deduction passes the statement's checks and is refused by the ledger:
  `OwnerStatements.GeneratedAcceptableIff`.
- Replacing the amounts of a statement enqueues nothing
  (src/owner-statements/owner-statements.service.ts:376-393): a statement that was
  recorded and paid leaves a balance exactly when its net changed between the two
  readings, `StatementRuns.SettledIff`, as in `Witnesses.ReplacementLeavesABalance`.
- An update of an expense reads the row in one statement and saves it whole in
  another (src/expenses/expenses.service.ts:301 and 351), so a payment in between is
  overwritten: `ExpensePayments.PaymentIsOverwritten` ends with 180.00 paid on an
  expense of 100.00 that reads 100.00. `ExpensePayments.PaidIsSumOfPayments` has the
  exact amount lost in every run. An update may also leave more paid than the
  expense amounts to: `ExpensePayments.WithinIff` says exactly when,
  `ExpensePayments.AmendedBelowPaid` is one.
- A pending late fee can be deleted, and the next run files another
  (`LateFees.SecondFeeAfterDeletion`); runs that overlap file one each
  (`LateFees.OverlappingRunsDouble`). `LateFees.AtMostOneFee` accounts for both.
- The record of a password reset is read outside the transaction that uses it, so
  two overlapping requests both succeed (`PasswordResets.UsedTwice`);
  `PasswordResets.UsedOnceIff` names the check that is missing.
- The guard of a login and the record of its failure are separate statements
  (src/auth/auth.service.ts:139-162), so logins that passed the guard together are
  all counted: `LoginRuns.AllAtOnce` counts any number of them, a millisecond apart.
  `LoginRuns.CountInFlight` bounds the count by the threshold and the logins in
  flight, `LoginRuns.RecordedWhileLockedIff` says which failures are recorded under
  a lock. Logins that do not overlap pass the threshold by one at most, when all
  five failures share an instant and the sixth falls on the end of the lock
  (`LoginLockout.GuardedCount`, `LoginLockout.SixthFailure`).
- Renewals that follow each other start a day later each time
  (`ContractRenewal.ChainedStartDrifts`); a monthly expense from day 29 on skips
  some February (`RecurringExpenses.MonthlyKeepsDayIff`).
- A failure mark of a stale worker takes a posted outbox row out of that state
  (`Outbox.PostedStaysIff`), which needs an event enqueued again while a worker
  holds it (`OutboxOwnership.PostedIsFinal`); `Witnesses.PostedRowFails` is such a
  run with two workers, and the ledger still holds one entry.

## Model

| member | source | states |
|---|---|---|
| LedgerService.AccountingLedgerService.ValidateEntry | src/accounting/accounting-ledger.service.ts:243-276 | the loop reports the first faulty line, then an imbalance in cents, and passes exactly the inputs with two or more one-sided, non-negative, named lines whose cents balance |
| Ledger.ValidationFault | src/accounting/accounting-ledger.service.ts:243-276 | no fault if and only if the lines form an acceptable entry |
| LedgerService.AccountingLedgerService.PostEntry | src/accounting/accounting-ledger.service.ts:51-131 | header, line loop and rollback together are the atomic posting `Ledger.Post`; an added entry holds what was asked, its date digit for digit and every line on the active account its code names; any failure, even an unknown account midway, leaves the entries as they were |
| LedgerService.AccountingLedgerService.InsertLines | src/accounting/accounting-ledger.service.ts:99-114 | stops at the first line whose code names no active account, otherwise stores every line in order |
| LedgerService.AccountingLedgerService.ReverseEntry | src/accounting/accounting-ledger.service.ts:133-241 | mirror loop and mark together are the atomic reversal `Ledger.Reverse`: the mirrored entry at the date asked for, digit for digit, and the mark on the original; a failure changes nothing |
| LedgerService.AccountingPeriodsService.AssertPeriodOpen | src/accounting/accounting-periods.service.ts:39-52 | passes exactly well-formed dates of years 2000 to 2100 whose month is not closed |
| LedgerService.AccountingPeriodsService.ClosePeriod | src/accounting/accounting-periods.service.ts:54-79 | closes exactly the one month if it is valid, keeping the first stamp |
| LedgerService.AccountingPeriodsService.ReopenPeriod | src/accounting/accounting-periods.service.ts:81-116 | reopens exactly the one month, and only with a reason that is not blank |
| Periods.Trim | src/accounting/accounting-periods.service.ts:89-95 | the stored reason has no outer white space and only white space was removed |
| Journal.DateReadsPrint | src/accounting/accounting-ledger.service.ts:80-96 | the date stored for an accepted text prints as that text |
| Journal.PrintedDateReads | src/accounting/accounting-ledger.service.ts:80-96 | every date of the years 0 to 9999 is read back from its text |
| Journal.SerialOrder | src/accounting/accounting-reports.service.ts:173-236 | dates compare by year, month and day |
| TenantTables.Tables.InsertEntry | src/tenants/tenant-accounting-provisioning.service.ts:235-237 | a source another entry has, or a date that does not exist, is refused |
| LedgerRuns.StoredTotals | src/accounting/accounting-ledger.service.ts:452-460 | the cents that were validated are the cents that are stored, side by side |
| LedgerRuns.NewEntrySound | src/accounting/accounting-ledger.service.ts:73-114 | an accepted entry has two or more one-sided balanced lines, known accounts, and an existing date of 2000 to 2100 |
| LedgerRuns.PostHolds | src/accounting/accounting-ledger.service.ts:73-131 | a posting adds one entry that prints the date it was given, in a month not closed, and keeps sources, amounts in cents, tags and the named active accounts, or it changes nothing |
| LedgerRuns.PostAddsIff | src/accounting/accounting-ledger.service.ts:51-131 | it adds one exactly when the lines are acceptable, the text is a date of the calendar in a month of 2000 to 2100 not closed, no entry has the source, and every code names an active account |
| LedgerRuns.PostRepeatsIff | src/accounting/accounting-ledger.service.ts:61-71 | it answers with an entry posted before exactly when the lines are acceptable and some entry has the complete, non-empty source |
| LedgerRuns.ReverseHolds | src/accounting/accounting-ledger.service.ts:133-241 | a reversal adds the mirror of a posted entry at the date it was given and marks that entry, or it changes nothing |
| LedgerRuns.ReverseAddsIff | src/accounting/accounting-ledger.service.ts:133-241 | it happens exactly for a posted entry of two or more lines that was not reversed so far, at a date of a month not closed |
| LedgerRuns.PostSound | src/accounting/accounting-ledger.service.ts:51-131 | posting keeps balance, unique sources and true reversal links |
| LedgerRuns.ReverseSound | src/accounting/accounting-ledger.service.ts:133-241 | reversing keeps them too, and its link points to a later mirror image |
| LedgerRuns.RunSound | src/accounting/accounting-ledger.service.ts:51-276 | in every reachable ledger every entry balances, sources are unique and links are true |
| LedgerHistory.RunExtends | src/accounting/accounting-ledger.service.ts:51-241 | in every run entries keep place and content, tags as posted; only the reversal mark may be set, once |
| LedgerHistory.ClosedMonthFrozen | src/accounting/accounting-periods.service.ts:39-52 | between a closing and the next reopening no step adds an entry to the month or changes a line of it, tags as posted |
| LedgerHistory.FirstClosingStays | src/accounting/accounting-periods.service.ts:67-71 | the first closing stamp survives every later step, reopenings included |
| LedgerHistory.RetryReturnsFirst | src/accounting/accounting-ledger.service.ts:61-77 | after any run a retry of a posted source returns the first receipt and changes nothing, even once its month is closed |
| LedgerHistory.ReversalCancels | src/accounting/accounting-ledger.service.ts:147-227 | an entry and its reversal net to zero for every choice of accounts and tags, and the reversal is later |
| LedgerHistory.ReversedAtMostOnce | src/accounting/accounting-ledger.service.ts:329-352 | no two entries name the same reversal |
| LedgerHistory.ChainNetsToHead | src/accounting/accounting-ledger.service.ts:147-227 | a chain of reversals nets to its head when its length is odd and to zero when even |
| LedgerHistory.LedgerIsHeadsInForce | src/accounting/accounting-ledger.service.ts:147-227 | the net of the whole ledger is the net of the chain heads still in force |
| Journal.MirrorCancels | src/accounting/accounting-ledger.service.ts:190-214 | mirror lines cancel their originals for every selection of lines |
| Reports.GetTrialBalance | src/accounting/accounting-reports.service.ts:105-147 | each row shows its net on one side, the other side is zero, totals sum the rows, and the flag is true exactly when the nets cancel |
| Reports.GetBalanceSheet | src/accounting/accounting-reports.service.ts:239-301 | totals by kind, which the listed lines sum to, and the flag is true exactly when the nets of all rows cancel |
| Reports.GetIncomeStatement | src/accounting/accounting-reports.service.ts:303-343 | income and expense lines and totals on their natural side; the lines sum to the totals |
| Reports.KindsPartition | src/accounting/accounting-reports.service.ts:255-299 | with five kinds the kind totals account for the whole net |
| Reports.KindTotalIsLedger | src/accounting/accounting-reports.service.ts:239-343 | the total of a kind is what the entries hold on its accounts, debits less credits for assets and expenses and the reverse for the others; the accounts the query leaves out hold nothing |
| Reports.ReportsBalance | src/accounting/accounting-reports.service.ts:105-147 | in every reachable ledger, for any filter keeping whole entries, the rows cancel, so the flags are true |
| Reports.ListedIff | src/accounting/accounting-reports.service.ts:105-133 | an account is listed exactly when something was booked on it, even if it nets to nothing |
| Reports.UnfilteredSumsAreInForce | src/accounting/accounting-reports.service.ts:116-120 | the sums the query really takes show, per account, the chain heads in force |
| Reports.ReadingsAgreeIff | src/accounting/accounting-reports.service.ts:116-120 | written and documented reading agree on an account exactly when no dropped entry touches it |
| Reports.JanuaryShowsInFebruary | src/accounting/accounting-reports.service.ts:116-120 | an entry of January is in the sums of February as the query is written |
| GeneralLedger.GetGeneralLedger | src/accounting/accounting-reports.service.ts:149-237 | every running balance is opening plus the signed prefix, closing the signed sum of all posted lines up to the end, debits less credits exactly for assets and expenses |
| GeneralLedger.QueryNet | src/accounting/accounting-reports.service.ts:187-212 | the movement query loses no line and invents none |
| GeneralLedger.ShownByDate | src/accounting/accounting-reports.service.ts:173-212 | only posted entries count, by date: before the range in the opening, inside it in the movements |
| GeneralLedger.OpeningPlusMovements | src/accounting/accounting-reports.service.ts:173-236 | opening and movements split what the closing covers |
| GeneralLedger.OrderIrrelevant | src/accounting/accounting-reports.service.ts:206-212 | the order of the rows does not change the closing balance |
| GeneralLedger.ClosingIsNextOpening | src/accounting/accounting-reports.service.ts:173-236 | the closing of a range is the opening of the query starting the next day |
| OutboxServices.AccountingOutboxService.Enqueue | src/accounting/accounting-outbox.service.ts:13-51 | the upsert leaves one row of the key, with the new payload, posted as before or claimable at once |
| Outbox.BackoffBounds | src/accounting/accounting-outbox.processor.ts:238 | the backoff of a claimed event is two minutes an attempt up to an hour and never shrinks |
| Outbox.ClaimIsOldestFirst | src/accounting/accounting-outbox.processor.ts:53-69 | a claim takes the oldest eligible rows, each once, and leaves one behind only when its limit is full |
| Outbox.ClaimedIff | src/accounting/accounting-outbox.processor.ts:53-69 | a claim takes a row exactly when it is pending or failed, its retry time is absent or has come, and fewer such rows than the limit are older |
| Outbox.AttemptsCountClaims | src/accounting/accounting-outbox.processor.ts:53-69 | in every history rows keep place and key and `attempts` counts the claims exactly |
| Outbox.ClaimsKeepTheRest | src/accounting/accounting-outbox.processor.ts:53-69 | in every history without a mark or an enqueue of a row only its status and the count of its claims change |
| Outbox.ClaimsAreSeparated | src/accounting/accounting-outbox.processor.ts:231-250 | between two claims of a row lies a failure mark or an enqueue of it |
| Outbox.RetryWaits | src/accounting/accounting-outbox.processor.ts:238-250 | a failed row stays untouched until its retry time unless it is enqueued or marked again |
| Outbox.FailedIsRetried | src/accounting/accounting-outbox.processor.ts:231-250 | after a failure mark a row left alone is not claimed for min(60, 2 * attempts) minutes and from then on by any claim whose limit older rows do not fill |
| Outbox.PostedStaysIff | src/accounting/accounting-outbox.processor.ts:210-250 | a posted row leaves that state exactly by a failure mark |
| OutboxOwnership.PostedIsFinal | src/accounting/accounting-outbox.processor.ts:53-100 | in every run that enqueues no event a worker holds, a row is in the hands of one worker at most and posted is final |
| OutboxServices.AccountingOutboxProcessor.ProcessPending | src/accounting/accounting-outbox.processor.ts:45-78 | claim and processing loop are the pass function: every due pending or failed row is settled with one attempt more while the limit has room, no other row changes, and the tables are left as a run of the state machine leaves them |
| OutboxServices.AccountingOutboxProcessor.ProcessEvent | src/accounting/accounting-outbox.processor.ts:90-100 | an event ends posted with its entry, or failed with a retry time, never both |
| OutboxServices.AccountingOutboxProcessor.HandleEvent | src/accounting/accounting-outbox.processor.ts:102-208 | dispatch posts exactly the entry of a payment or refund event and notes it on its row; other families post what their builder gives; a refusal changes nothing |
| OutboxWorker.PassIsRun | src/accounting/accounting-outbox.processor.ts:45-100 | the pass of a sequential worker is a run of atomic steps, statement by statement |
| OutboxWorker.PassSettles | src/accounting/accounting-outbox.processor.ts:45-100 | a pass leaves every claimed row posted or failed and every other row unchanged |
| OutboxWorker.PassTakesDue | src/accounting/accounting-outbox.processor.ts:45-100 | a pass settles every pending or failed row that is due while its limit has room, with one attempt more, and changes no other |
| PaymentServices.PaymentService.CreatePayment | src/payments/payment-creation.service.ts:24-114 | refused exactly below 0.01, otherwise adds one pending payment of the amount to the nearest cent, not to be posted, and enqueues nothing |
| PaymentServices.PaymentService.CreatePaymentAsAdmin | src/payments/payment-creation.service.ts:116-229 | the payment and, when approved on creation, its outbox row are committed together or not at all; only an approved one is to be posted |
| PaymentServices.PaymentService.ApprovePayment | src/payments/payment-approval.service.ts:33-134 | only PENDING and PROCESSING are approved; status and outbox row change together, and a failing split undoes both |
| PaymentServices.PaymentService.RejectPayment | src/payments/payment-approval.service.ts:136-210 | only PENDING and PROCESSING are rejected, and nothing is enqueued |
| PaymentServices.PaymentService.CreatePaymentRefund | src/payments/payment-refunds.service.ts:30-132 | refund, row and status change together; the refunds stay within the amount and REFUNDED means exactly used up |
| PaymentServices.PaymentStatusService.UpdatePaymentStatus | src/payments/payment-status.service.ts:56-120 | approval is delegated; any other change is accepted exactly from its allowed statuses and writes no event |
| PaymentServices.PaymentsService.DeletePayment | src/payments/payments.service.ts:176-199 | a payment that is neither APPROVED nor PROCESSING is removed, no other, and no event is written |
| PaymentServices.StatusChangeIsRun | src/payments/payment-status.service.ts:71-103 | an undisturbed status change is a run of its read and its write |
| PaymentStatuses.TablesAgree | src/payments/payment-webhook.service.ts:22-30 | an administrator may request exactly what a processor may report, but for approval and the rejection of a payment in process; the table of reports by its starting statuses |
| PaymentStatuses.StatusNeverReturns | src/payments/payment-status.service.ts:56-120 | in every run without a late write of its status a settled payment is never undecided again, and rejected, failed, refunded and reversed are final |
| PaymentStatuses.EnqueuesApproved | src/accounting/accounting-financial-integrity.service.ts:209-230 | every request that enqueues a payment's event leaves the payment approved and not marked posted |
| PaymentStatuses.AccountingMoves | src/payments/payment-webhook.service.ts:130-145 | only approval and the mark of a posting change what a payment says of its posting |
| PaymentServices.QrPaymentProcessingService.ProcessQrPayment | src/payments/qr/qr-payment-processing.service.ts:50-164 | a code leads to at most one payment, approved on insertion and not enqueued |
| ReservationRefunds.ReservationRefundService.RefundApprovedPayments | src/reservations/reservation-refund.service.ts:27-75 | the loop refunds the percentage of every approved payment of the reservation and returns the total |
| ReservationRefunds.ReservationRefundService.RefundAbsoluteAmount | src/reservations/reservation-refund.service.ts:83-131 | the loop hands out the amount payment by payment and refunds the amount or all the approved payments amount to, whichever is less |
| ReservationRefunds.FixedTotal | src/reservations/reservation-refund.service.ts:100-125 | the shares handed out sum to the lesser of the amount and what the payments amount to |
| ReservationRefunds.PercentShareIsHalfUp | src/reservations/reservation-refund.service.ts:43-50 | a payment is refunded the percentage to the nearest cent, half a cent going up |
| ReservationRefunds.ApprovedComplete | src/reservations/reservation-refund.service.ts:35-39 | the query misses no approved payment of the reservation |
| ReservationRefunds.SharesAreRun | src/reservations/reservation-refund.service.ts:43-69 | the transaction is a run of single refunds, so every result about runs holds of it |
| ReservationRefunds.FullRefundFitsIff | src/reservations/reservation-refund.service.ts:43-68 | a full refund keeps the refunds within the amount exactly when nothing was refunded before |
| Witnesses.RefundsPassTheAmount | src/reservations/reservation-refund.service.ts:51-68 | 100.00 approved and posted, 50.00 refunded and posted, the reservation cancelled in full: 150.00 refunded, every event posted, the ledger shows 50.00 |
| Witnesses.ReportedRefundIsEarly | src/payments/payment-webhook.service.ts:130-145 | a report marks a payment REFUNDED of which nothing was refunded |
| Witnesses.LateChangeUnmarks | src/payments/payment-status.service.ts:71-103 | a status change read before a full refund and written after it leaves DISPUTED |
| Witnesses.PostedRowFails | src/accounting/accounting-outbox.processor.ts:231-250 | an event enqueued again while a worker holds it is posted by one worker and then marked failed by the other |
| Witnesses.ReplacementLeavesABalance | src/owner-statements/owner-statements.service.ts:376-393 | a worker reads 90.00, the amounts are replaced, the worker records what it read, 80.00 are paid: 10.00 stay owed |
| OutboxServices.AccountingPaymentPostingService.PostApprovedPayment | src/accounting/accounting-payment-posting.service.ts:26-119 | posts the entry of an approved payment, dated on the payment's day, from its income or deposit account to 1100, and marks that payment, no other; a failure changes nothing |
| OutboxServices.AccountingPaymentRefundPostingService.PostPaymentRefund | src/accounting/accounting-payment-refund-posting.service.ts:25-123 | posts the entry of a refund, from 1100 back to the payment's account, and marks that refund, no other; a failure changes nothing |
| Posting.EntriesAcceptable | src/accounting/accounting-payment-posting.service.ts:39-71 | the two lines built for any positive payment or refund pass validation |
| Posting.AmountRoundTrip | src/accounting/accounting-payment-posting.service.ts:31 | a stored amount goes to the ledger and back to the same cents |
| Posting.PaymentRecorded | src/accounting/accounting-payment-posting.service.ts:38-76 | the entry of a payment has its day, source and tags, 1100 debited and its income or deposit account credited with its cents |
| Posting.RefundRecorded | src/accounting/accounting-payment-refund-posting.service.ts:38-73 | the entry of a refund has the day of the refund, its source, the tags of the payment, and the two accounts the other way round |
| SystemSteps.RunInv | src/accounting/accounting-outbox.processor.ts:45-255 | every step of requests with and without events, workers, crashes, closings and reversals keeps rows, tasks and entries in agreement |
| SystemSteps.EnterInv | src/accounting/accounting-ledger.service.ts:51-131 | posting on behalf of a worker keeps the agreement whether it adds an entry, finds one or is refused |
| SystemSteps.CreateRefundInv | src/payments/payment-refunds.service.ts:30-132 | a refund request keeps it |
| SystemSteps.InsertRefundInv | src/reservations/reservation-refund.service.ts:51-68 | a reservation refund keeps it without adding a row |
| Reconciliation.RunAgrees | src/accounting/accounting-outbox.processor.ts:90-100 | in every reachable state, for every choice of account codes and payments posted for, the entries of both families net to the payments in the ledger less the refunds in it |
| EndToEnd.AgreesAsStored | src/tenants/tenant-accounting-provisioning.service.ts:114-121 | the same for every choice by the payment tags as they are stored, those of deleted payments cleared |
| Reconciliation.PaymentEntryEffect | src/accounting/accounting-payment-posting.service.ts:53-71 | a payment debits 1100 and credits its income or deposit account, tagged with it |
| Reconciliation.RefundEntryEffect | src/accounting/accounting-payment-refund-posting.service.ts:51-68 | a refund does exactly the opposite |
| Reconciliation.StepExtendsDesk | src/payments/payment-approval.service.ts:57-70 | amounts, types, dates and keys never change after creation |
| EndToEnd.EntryUnique | src/accounting/accounting-ledger.service.ts:61-71 | exactly-once effect: no two entries carry the source of one payment or refund, whatever the retries and crashes |
| EndToEnd.EntriesMatchDesk | src/accounting/accounting-outbox.processor.ts:90-100 | once all events are posted, enqueued payments and enqueued refunds correspond one to one to the entries of their families |
| EndToEnd.CashReconciles | src/accounting/accounting-payment-posting.service.ts:53-71 | then the net debit on 1100 is the sum of enqueued payments less the sum of enqueued refunds |
| AccountTotals.AccountsReconcile | src/accounting/accounting-payment-posting.service.ts:121-132 | then 2200 is credited with the enqueued deposits less their enqueued refunds, 4000 with rent, 4100 with late fees, 4300 with all other types, and 1100 is debited with all of it |
| EndToEnd.CashDifference | src/accounting/accounting-payment-posting.service.ts:53-71 | then it differs from settled payments less all refunds by exactly the settled payments never enqueued, the enqueued ones no longer settled, the refunds never enqueued and the enqueued ones deleted with their payment |
| EndToEnd.PaymentReconciles | src/accounting/accounting-payment-refund-posting.service.ts:51-68 | then the lines tagged with an existing payment leave its amount, if enqueued, less its enqueued refunds on cash and the opposite on its income or deposit account |
| EndToEnd.DeskCountsIff | src/payments/payment-webhook.service.ts:130-145 | the ledger shows what the tables count for a payment exactly if it is settled just when enqueued and all its refunds are enqueued, or it never reached the ledger and refunds without an event give back its amount |
| EndToEnd.ReservationRefundUnseen | src/reservations/reservation-refund.service.ts:51-68 | a reservation refund leaves every event posted and the ledger as it was, while the tables count less |
| EndToEnd.WebhookGap | src/payments/payment-webhook.service.ts:130-145 | a processor report settles a payment that no event will ever carry to the ledger |
| RefundConservation.RefundsWithinIff | src/payments/payment-refunds.service.ts:54-75 | in every run the refunds of a payment sum to at most its amount exactly when every refund of its reservation fitted what was left at that moment; requested refunds always do |
| RefundConservation.TotalsMove | src/payments/payment-refunds.service.ts:77-96 | a step moves the refund total of a payment exactly by what it refunds of it |
| RefundConservation.RefundedByHistory | src/payments/payment-refunds.service.ts:116-123 | in every run REFUNDED against refunded in full stands exactly as the last step that touched the payment left it, computed from what its caller could see |
| RefundConservation.UsedUpIsRefunded | src/payments/payment-refunds.service.ts:116-123 | unless a late status change overwrote it, a payment refunded in full is REFUNDED, in every run |
| RefundConservation.OrdinaryRunRegular | src/payments/payment-refunds.service.ts:54-123 | for a payment no request without an event touched, whatever happened to others: settled means enqueued, REFUNDED means refunded in full, refunds stay within the amount and are all enqueued |
| RefundConservation.OrdinaryPaymentReconciles | src/payments/payment-refunds.service.ts:54-123 | such a payment's lines leave its amount less its refunds, which is nothing exactly when it is not APPROVED |
| RefundConservation.OrdinaryRunsReconcile | src/payments/payment-refunds.service.ts:54-123 | when that holds of all payments the cash of the ledger is settled payments less refunds |
| PostingLinks.MarksAreTrue | src/accounting/accounting-payment-posting.service.ts:102-119 | in every run a payment or refund marked as posted names the entry with its own source |
| OwnerStatements.SplitAddsIff | src/owner-statements/owner-statements.service.ts:353-363 | maintenance, commission and net add up to gross exactly unless half a cent of gross meets a net of the other sign |
| OwnerStatements.HalfCentIsLost | src/owner-statements/owner-statements.service.ts:353-363 | 10.005 gross and 20.00 maintenance make such a statement |
| OwnerStatements.SplitOfCents | src/billing-cron/billing-cron.service.ts:320-332 | for whole cents nothing is lost, and the commission is within half a cent of exact and between zero and gross |
| OwnerStatements.GeneratedAcceptableIff | src/accounting/accounting-owner-statement-posting.service.ts:38-98 | a statement that passes the amount checks builds an accepted entry exactly when commission and deduction are not negative |
| OwnerStatements.SplitPosts | src/accounting/accounting-owner-statement-posting.service.ts:33-98 | every split of positive whole cents with a net of zero or more passes the checks and validation |
| OwnerStatements.TransferAcceptable | src/accounting/accounting-owner-statement-posting.service.ts:133-158 | a positive net makes an accepted transfer entry |
| OwnerStatements.PeriodDateReads | src/accounting/accounting-owner-statement-posting.service.ts:239-241 | the entry of a valid period is dated on the first of its month |
| StatementRuns.SourcesApart | src/accounting/accounting-owner-statement-posting.service.ts:100-158 | no statement is posted under the sources of another |
| StatementRuns.GeneratedPosted | src/accounting/accounting-owner-statement-posting.service.ts:33-116 | recording a statement debits 4000 with its gross and credits 4200, 2100 and 5200 with commission, net and deduction, every line tagged with property, unit and owner, on the first of the month, and touches no other account |
| StatementRuns.TransferPosted | src/accounting/accounting-owner-statement-posting.service.ts:120-161 | the transfer debits 2100 and credits 1100 with the net, dated today, and touches no other account |
| StatementRuns.OwedOverRuns | src/accounting/accounting-owner-statement-posting.service.ts:33-161 | in every run, with refused and repeated postings and amounts replaced before, between and after reading and posting, 2100 carries for a statement the net its transfer was read with less the net its recording was read with |
| StatementRuns.OnceEach | src/accounting/accounting-ledger.service.ts:61-71 | in every run a statement is recorded at most once and paid out at most once |
| StatementRuns.SettledIff | src/accounting/accounting-owner-statement-posting.service.ts:33-161 | 2100 is left at zero exactly when the net paid is the net recorded |
| StatementRuns.PostingIsRun | src/accounting/accounting-owner-statement-posting.service.ts:28-161 | a posting nothing interrupts is its reading followed by its entry |
| StatementServices.OwnerStatementsService.CreateStatementFromPayment | src/owner-statements/owner-statements.service.ts:326-397 | one statement an owner, property and month, with the split amounts; only a new one is enqueued |
| StatementServices.AccountingOwnerStatementPostingService.BuildLines | src/accounting/accounting-owner-statement-posting.service.ts:59-98 | the lines pushed one by one are accepted exactly when commission and deduction are not negative |
| StatementServices.AccountingOwnerStatementPostingService.PostGeneratedStatement | src/accounting/accounting-owner-statement-posting.service.ts:28-118 | the error cases in order, the atomic posting, the mark on that statement alone, and that this is the posting step of the statement machine |
| StatementServices.AccountingOwnerStatementPostingService.PostStatementTransfer | src/accounting/accounting-owner-statement-posting.service.ts:120-164 | the same for the transfer, refused without a positive net |
| Money.HalfUpCharacterised | src/common/money/rounding.ts:18 | the rounded value is the only integer in its half-open half unit, ties going away from zero |
| Money.PercentBounds | src/billing-cron/late-fee.calculator.ts:12-22 | a share of 0 to 100 percent is within half a cent of exact and between nothing and the whole |
| Money.ShiftIff | src/expenses/expenses.service.ts:427-430 | rounding before or after subtracting whole cents differs exactly when a tie changes sign |
| LateFees.CalculateLateFee | src/billing-cron/late-fee.calculator.ts:12-22 | the fee lies within half a cent of the exact percentage, half a cent going up, is never negative, and is zero when principal or percentage is not positive |
| LateFees.LateFeeIsHalfUp | src/billing-cron/late-fee.calculator.ts:12-22 | the fee is the one integer of cents nearest to the exact percentage, half a cent going up |
| LateFees.IsPaymentOverdue | src/billing-cron/late-fee.calculator.ts:28-36 | setting the day past the end of the month still counts exactly the grace days, from midnight of the due date, so a payment is overdue during the last of them |
| LateFees.BillingCronService.ApplyLateFees | src/billing-cron/billing-cron.service.ts:142-216 | the query and loop append exactly the fees of the overdue payments, each pending, due today, under its rent and with its tenant, contract and property |
| LateFees.BillCount | src/billing-cron/billing-cron.service.ts:152-193 | a run gives one fee to exactly the pending rents of contracts whose due date plus grace lies before today, that have none yet and whose percentage comes to half a cent |
| LateFees.BillAgain | src/billing-cron/billing-cron.service.ts:152-193 | a second run on the same day changes nothing |
| LateFees.AtMostOneFee | src/billing-cron/billing-cron.service.ts:152-193 | in every run of steps, with rows added, changed and deleted and runs overlapping, the runs add at most one fee to a payment more than deletions took away and overlapping insertions doubled, one less if it began with a fee |
| LateFees.DoublesWhatCameSince | src/billing-cron/billing-cron.service.ts:152-193 | an insertion doubles a fee only if one was added after its run read the payments |
| LateFees.BillIsRun | src/billing-cron/billing-cron.service.ts:152-193 | a query and its insertions with nothing in between are one undisturbed run |
| LateFees.SecondFeeAfterDeletion | src/payments/payments.service.ts:176-199 | a pending fee is deleted and the next run files a second one |
| LateFees.DeletionFreesFees | src/payments/payments.service.ts:176-199 | deleting a payment leaves no fee under it |
| LateFees.OverlappingRunsDouble | src/billing-cron/billing-cron.service.ts:152-193 | two runs that both read a payment before either charges it give it two fees |
| ExpensePayments.ExpensesService.RegisterExpensePayment | src/expenses/expenses.service.ts:386-490 | the error cases in order, the stored payment, and PAID exactly when paid equals the amount |
| ExpensePayments.NewPaidAdds | src/expenses/expenses.service.ts:427-430 | rounding the new sum equals adding the rounded payment, and stays within the amount |
| ExpensePayments.ExpensesService.UpdateExpense | src/expenses/expenses.service.ts:296-370 | run undisturbed, an update changes amount and status as asked, keeps what was paid, and is its read followed by its save |
| ExpensePayments.PaidIsSumOfPayments | src/expenses/expenses.service.ts:411-467 | in every run of payments, reads and saves paid is the initial amount plus all accepted payments plus what saves wrote over, so it is their sum exactly when that is nothing |
| ExpensePayments.QuietSaveKeepsPaid | src/expenses/expenses.service.ts:296-370 | a save writes nothing over when neither a payment nor another save of the expense lies between its read and it |
| ExpensePayments.PaymentIsOverwritten | src/expenses/expenses.service.ts:301-351 | a payment between a read and its save is lost, and 180.00 are accepted on 100.00 |
| ExpensePayments.WithinMoves | src/expenses/expenses.service.ts:411-467 | a payment never takes paid past the amount; a save leaves it within exactly when the paid amount it writes is within the amount it writes |
| ExpensePayments.WithinIff | src/expenses/expenses.service.ts:296-370 | in every run paid is within the amount exactly when the last save, or the beginning, left it so |
| ExpensePayments.AmendedBelowPaid | src/expenses/expenses.service.ts:296-370 | 80.00 paid of 100.00, updated to 50.00, is not within |
| Calendar.DayFromYear | src/contracts/contract-renewal.service.ts:206-220 | the closed form of ECMA-262 for the first day of a year counts the years one by one |
| Calendar.MakeDayCounts | src/contracts/contract-renewal.service.ts:206-220 | month overflow in either direction counts months one by one |
| Calendar.MakeDayIsGregorian | src/contracts/contract-renewal.service.ts:206-220 | for any year, month and date the day number is the closed form of the Gregorian calendar, without a table of month lengths |
| Calendar.MakeDayOfFields | src/contracts/contract-renewal.service.ts:206-220 | taking a day apart into year, month and date and putting it together gives the day back |
| Calendar.FieldsOfMakeDay | src/contracts/contract-renewal.service.ts:206-220 | a date on the calendar keeps its fields |
| ContractRenewal.ResolveEndDate | src/contracts/contract-renewal.service.ts:206-220 | the sequence of overflowing setters meets the clip rule for every date and duration |
| ContractRenewal.ClippedFields | src/contracts/contract-renewal.service.ts:206-220 | the end lies in the month start plus n, on the start day or the last day if earlier |
| ContractRenewal.ResolveStartDate | src/contracts/contract-renewal.service.ts:193-204 | the next term starts the day after the old one ends, across month ends |
| ContractRenewal.EndMonotoneInStart | src/contracts/contract-renewal.service.ts:206-220 | a later start never ends earlier |
| ContractRenewal.EndStrictInDuration | src/contracts/contract-renewal.service.ts:206-220 | a longer term ends strictly later |
| ContractRenewal.ClipComposes | src/contracts/contract-renewal.service.ts:206-220 | renewing twice equals renewing once exactly when the first month did not shorten the day below what the last allows |
| ContractRenewal.ChainedStartDrifts | src/contracts/contract-renewal.service.ts:193-220 | a renewal that follows never starts on the day of the month its predecessor did |
| RecurringExpenses.AddInterval | src/expenses/expenses.service.ts:723-745 | the setters move a date by the interval, overflow included |
| RecurringExpenses.StepBounds | src/expenses/expenses.service.ts:723-745 | every step goes forward by 1, 7, 28 to 31, 89 to 92 or 365 to 366 days, a monthly one by the length of the month it leaves |
| RecurringExpenses.GenerateRecurringExpenses | src/expenses/expenses.service.ts:684-721 | the loop terminates and yields exactly the orbit of the start below the end, as instances of their parent that do not recur |
| RecurringExpenses.ScheduleBounds | src/expenses/expenses.service.ts:684-721 | dates increase inside the range and their number is bounded on both sides |
| RecurringExpenses.MonthlyKeepsDayIff | src/expenses/expenses.service.ts:723-745 | monthly instances keep their day in every month exactly when it is 28 or less |
| AuditCsv.ToCsv | src/audit-logs/audit-logs.service.ts:253-287 | the loop builds a file that a parser for RFC 4180 section 2 reads back to header and cells |
| AuditCsv.RecordsHoldCells | src/audit-logs/audit-logs.service.ts:254-283 | the header is bare, and a record holds the quoted text of every column and an empty bare field where there is none |
| AuditCsv.CsvRoundTrip | src/audit-logs/audit-logs.service.ts:253-287 | parsing after the byte order mark recovers every cell, for arbitrary text |
| AuditCsv.EscapeReadsBack | src/audit-logs/audit-logs.service.ts:267-278 | an escaped cell followed by a separator reads back to its text and nothing more |
| AuditCsv.CsvDeterminesCells | src/audit-logs/audit-logs.service.ts:253-287 | two files are equal exactly when every cell is, null and empty told apart |
| LoginLockout.LoginAttempts.AssertLoginAllowed | src/auth/auth-security.service.ts:38-75 | refused exactly while the lock lies in the future |
| LoginLockout.LoginAttempts.RecordFailure | src/auth/auth-security.service.ts:77-165 | the upsert moves one key's row by the reset rule: counted on within fifteen minutes of the first failure and until a lock is over, locked for fifteen minutes from the fifth on |
| LoginLockout.RowEqualsHistory | src/auth/auth-security.service.ts:83-153 | after any events the row is the fold of the failures since the last success |
| LoginLockout.RowIsLastRun | src/auth/auth-security.service.ts:83-153 | count, first time and lock read as the last run of failures, with a lock exactly at the threshold or above |
| LoginLockout.GuardedCount | src/auth/auth-security.service.ts:43-56 | for failures recorded only while not locked, the count stays at the threshold but for one exact coincidence |
| LoginLockout.SixthFailure | src/auth/auth-security.service.ts:83-153 | the coincidence: six such failures counted |
| LoginLockout.TenFailuresSpanWindow | src/auth/auth-security.service.ts:83-153 | any ten consecutive failures recorded only while not locked span at least the window |
| LoginRuns.RecordedWhileLockedIff | src/auth/auth.service.ts:139-162 | in every run, under a lock that lies in the future, exactly the logins that passed the guard before that lock was set record a failure |
| LoginRuns.CountInFlight | src/auth/auth.service.ts:139-162 | in every run the count is at most the threshold plus the logins in flight when the lock was set plus those that passed at the very end of a lock, and these raise it only when the failures fill exactly the window |
| LoginRuns.UndisturbedIsGuarded | src/auth/auth.service.ts:139-162 | when no write to the row lies between a guard and its record, failures are recorded only while not locked |
| LoginRuns.UndisturbedCount | src/auth/auth.service.ts:139-162 | such runs pass the threshold by one at most |
| LoginRuns.UndisturbedRateLimit | src/auth/auth.service.ts:139-162 | in such runs any ten consecutive failures span the window |
| LoginRuns.AllAtOnce | src/auth/auth.service.ts:139-162 | any number of logins that pass the guard together are all counted, a millisecond apart, whatever the threshold |
| RefreshTokens.RunExtends | src/auth/refresh-token.service.ts:121-198 | in every run revocations keep their instant and user versions never go back |
| RefreshTokens.ConsumedAtMostOnce | src/auth/refresh-token.service.ts:121-168 | in every interleaving a token is consumed successfully at most once, and never if it starts revoked |
| RefreshTokens.ReplayRevokesFamily | src/auth/refresh-token.service.ts:202-222 | replaying a revoked token leaves its family without a live token, whatever runs in between |
| RefreshTokens.FamilyStaysDead | src/auth/refresh-token.service.ts:186-200 | and it stays so until a token is issued to it |
| RefreshTokens.StaleNeverSucceeds | src/auth/refresh-token.service.ts:144-155 | a token older than its user's version never succeeds |
| RefreshTokens.ResetEndsSessions | src/auth/auth.service.ts:518-540 | no token from before a reset or a change of the password (src/users/users.service.ts:331-350) succeeds after it, not even one already taken by a request |
| RefreshTokens.SuccessExplained | src/auth/refresh-token.service.ts:121-168 | in every run a token that succeeds was taken while neither revoked nor expired and then checked, by the same request, while its tenant was active and its user active with the same address, role and version |
| RefreshTokens.ExpiredNeverSucceeds | src/auth/refresh-token.service.ts:121-143 | a token only presented at or after its expiry never succeeds |
| RefreshTokenServices.RefreshTokenService.IssueToken | src/auth/refresh-token.service.ts:89-115 | adds one live token for thirty days |
| RefreshTokenServices.RefreshTokenService.Consume | src/auth/refresh-token.service.ts:121-168 | succeeds exactly for a token neither revoked nor expired, of an active tenant and an active user with the same address, role and version, and then revokes it alone; a replay or a stale user revokes the family |
| RefreshTokenServices.RefreshTokenService.RevokeAll | src/auth/refresh-token.service.ts:186-200 | leaves no live token in the family and other families alone |
| RefreshTokenServices.RefreshTokenService.Revoke | src/auth/refresh-token.service.ts:170-184 | revokes one token and names its owner if it was unrevoked |
| RefreshTokenServices.ConsumeRuns | src/auth/refresh-token.service.ts:121-168 | the undisturbed request is a run of its statements |
| RefreshTokenServices.AuthService.ResetUserPassword | src/auth/auth.service.ts:488-545 | run undisturbed, version, reset record and sessions change together, a used or expired record is refused, and the record is found and then used |
| PasswordResets.UsedOnceIff | src/auth/auth.service.ts:495-530 | a reset record is used at most once exactly when every transaction finds it unused, which it does not check |
| PasswordResets.UsedOnceApart | src/auth/auth.service.ts:495-530 | so it is for requests that do not overlap |
| PasswordResets.UsedTwice | src/auth/auth.service.ts:495-530 | two requests that read it before either commits use it twice |
| Prelude.DecimalTextInjective | src/accounting/accounting-payment-posting.service.ts:44 | two identifiers never share a source text |

## Left out

- PostgreSQL itself: a transaction is one step, one statement is one step, and the order of RETURNING rows is taken as creation order. So `recordFailure`, one statement that computes the count from a row it reads without a lock, never loses a count here, and the queries of one report read one state.
- Widths of NUMERIC and VARCHAR columns, and the overflow errors they raise.
- Entry metadata, currencies, notes and created or updated stamps; the texts of error messages beyond which error it is.
- The time of day and time zones: dates are civil days, and DATE columns arrive as text.
- Lower-casing of addresses, hashing and random tokens: addresses are stored folded, hashes are injective, tokens are named by their row.
- Expense posting and its outbox keys, which several payments of one expense share (src/expenses/expenses.service.ts:174-178): the worker takes such entries as a parameter, and no per-payment claim is made about them.
- Reservation confirmation and the split of an approved payment among receivers: they can only fail or not.
- Contract and property checks when a payment is created, and how a QR code finds its contract.
- LedgerHistory.RunExtends: takes a line with the tags it was posted with. Deleting a property, unit, owner, user, contract, payment or expense sets its tag on posted lines to NULL (src/tenants/tenant-accounting-provisioning.service.ts:114-121); results for every choice of tags hold of the cleared tags as well, since a choice may read them as cleared.
- LedgerHistory.ClosedMonthFrozen: the same, in closed months too; amounts, accounts and dates never change.
- Reconciliation.RunAgrees: the same; `EndToEnd.AgreesAsStored` reads the payment tag as it is stored.
- That foreign keys refuse a line for a payment deleted since is covered by the step in which a worker breaks off.
- OutboxServices.AccountingOutboxProcessor.HandleEvent: takes the entries of the expense and owner statement families as a parameter and leaves out the marks on their rows; the owner statement postings are modelled in `StatementServices`.
- Deletion of expenses.
- The monthly loop over properties that writes statements: its split is `OwnerStatements.SplitOfCents`, its upsert that of `CreateStatementFromPayment` without the enqueue.
- Fractional renewal durations and recurrence intervals outside the five, which the request validation excludes; with another interval the generation loop would not end.
- Liveness of the outbox: a crash leaves a row in processing with no timeout.
- The order of accounts in report lists, and pagination.
- Sending of reminders, notifications, audit entries, mail and PDF files.
- Deletion of users: a user is only deactivated.
