# A verified model of the accounting engine

This project models the accounting engine of a small-business back office as it is written in
`backend/app/services`: documents that move stock, payments allocated to documents, a dated cash ledger,
warehouse tasks, product groups, and the imports and migrations that feed them. It states what the engine
promises and proves it with Dafny's verifier.

Quantities are thousandths, prices and amounts are cents, so the decimals of the original are integers here;
where the original rounds, `Common.RoundHalfEven` rounds the same way. Requests are taken to be on that grid.
The schemas do not enforce it: an outgoing correction of 1.0005 plans on the unrounded quantity, and the
database then rounds the balance and the movement each for itself, so the two can part by a thousandth.

## How it is organised

The tables of the database are values: maps from ids to rows and append-only sequences. Every operation has
a function that says what it does to those values, with the error it answers in each refused case
(`Documents`, `Logistics`, `Payments`, `Cash`, and `Books`, which puts the tables together and makes every
service call one step). The six `Rules` files then state each operation a second time without
those functions: over rows, balances and sums only. The services change their state in place, so each one is also written as methods on
the mutable classes `Database.Db`, `Cash.CashTable`, `Groups.GroupTable`, `GroupTree.DescendantMap` and
`GroupTree.OptionList`, with the loops the original has. Their contracts equate the new state with the function
of the old state, and say that a refused call leaves everything as it was. What the engine promises is then
proved about the functions, for every input, every run and every interleaving.

| file | what it holds |
|---|---|
| `Stock`, `Planning` | movements, the line-by-line plan, and its closed form |
| `Documents`, `Versions`, `Corrections`, `AnyOrder` | posting, correcting, cancelling; the versioned log; how the three relate; cancelling whatever order the rows come back in |
| `Logistics`, `TaskService` | the task machine, its event log, the transfer gate |
| `Payments`, `Distribution`, `Backfill` | allocations, the bounds two services keep together, oldest-first distribution, the migration |
| `Reconciliation` | partner balances, what they decompose into, the statement |
| `Ordering`, `Cash`, `CashBook` | dated entries, the non-negative ledger, the full book and its pages |
| `Books`, `Database`, `DocumentService`, `PaymentService` | all tables together, one step per service call, and the calls in place |
| `Money`, `Engine`, `History` | the invariants of every run, for the money on its own and for everything; what no run takes back |
| `Reachable`, `Ledger`, `Migrated` | what follows in every reachable state, what becomes of cash rows, every run after the migration |
| `DocumentRules`, `PostingRules`, `PaymentRules`, `LedgerRules`, `TaskRules`, `StatementRules` | every operation over the rows alone: exactly when it is accepted, and exactly what it leaves |
| `Locks` | concurrent postings: serial equivalence and deadlock freedom |
| `Groups`, `GroupTree` | the category forest and the page that draws it |
| `RunLength` | the InterBase record decoder |
| `Common`, `Sums` | results, rounding, finite sums |

## Main results

- **Every run.** From an empty database, whatever sequence of the twenty-three commands runs, accepted or refused:
  balances equal the sum of the log and are never negative; each document's old versions cancel out and it
  nets to its current version, or to nothing; its revisions are exactly one to its version and the last one is
  what it says; no payment is over-spent and no document over-paid; the cash book never dips; a cancelled
  payment has no live cash row; tasks follow the posting in force and transfers are gated
  (`Engine.RunKeeps`, read off in `Reachable`). Nothing in the logs is ever taken back (`History.RunExtends`).
  The money half needs nothing of the stock half (`Money.RunKeepsAllocations`, `Money.RunKeepsLedger`).
- **Acceptance.** Each service call is accepted if and only if a condition over the rows holds, and then leaves
  exactly the rows stated: posting (`PostingRules.PostedExactly`), correcting, also of a paid document
  (`PostingRules.CorrectedExactly`), cancelling, every edit of a draft and both imports (`DocumentRules`), every
  payment call (`PaymentRules`), every cash row (`LedgerRules`: for every day and row number the signed rows
  before it sum to at least nothing) and every task step (`TaskRules`). In every reachable state a posting has
  exactly the tasks it asks for, where it asks for them (`TaskRules.PostingsHaveWhatTheyAskFor`).
- **Reconciliation.** In every reachable state a partner's balance is what is open on sales, less what is open
  on purchases, less customer advances, plus supplier advances; so reallocating money moves no balance.
- **Migration.** Whatever order the old payments are taken in, none is over-spent and no document over-paid,
  then and after every later run. The rows it makes are well typed if and only if every posted payment whose
  turn finds part of a document with the same partner, or none on both, unpaid is linked to the right type; the
  reconciliation then holds in every later run.
- **Concurrency.** Under any interleaving of lock, read, commit and abort steps, the committed store is that
  of a serial execution in which every transaction gets the same answer, and nobody is ever stuck.
- **Corrections.** A correction is accepted whenever cancelling and posting anew would be, with the same
  balances; the exact condition for each of post, correct and cancel is proved, for cancelling also over every
  order of the rows.
- **Refinement.** The paged cash book is a slice of the full one; the memoised descendants are strict
  reachability exactly for the groups on no cycle; the greedy distribution allocates all there is and is accepted; decoding inverts encoding.

Where the code and its own documentation disagree the model follows the code:
`docs/domain-model/document-lifecycle.md:53-57` calls posted documents read-only, but
`documents_service.py:878-974` corrects them. Three expectations turned out false of the code. Each has a
concrete input and its exact condition:

- An adjustment can post and then refuse to be cancelled, because the cancel loop checks every partial undo
  (`Corrections.AdjustmentThatCannotBeCancelled`). Right after posting it can be cancelled exactly when no
  line overshoots (`Corrections.CancelUndoesPost`), if the rows come back in the order they were written. The
  query does not order them; over all orders, some order always works, and every order works exactly when no
  balance would have to give back more than it holds (`AnyOrder.CancelInAnyOrder`).
- The migration can put a customer payment, or a refund, on a purchase (`Backfill.BackfillCanMistype`). When
  it types every row correctly is `Backfill.MigrationTypesExactly`; the amount bounds hold in every later run
  either way (`Migrated.MigratedStaysBounded`).
- A posted payment can be without a live cash row (`Ledger.PostedWithoutLiveRow`). Its row is live exactly
  while nobody cancelled the row by hand (`Ledger.CancelledExactly`).

## Model

| member | source | states |
|---|---|---|
| `Common.RoundHalfEven` | backend/app/services/documents_service.py:53-54 | line totals are rounded to the nearest cent, ties to the even one |
| `Stock.PlanMovement` | backend/app/services/documents_service.py:701-725 | a line is refused exactly when more is to leave than is there; otherwise every quantity moves by what the line adds, and the new movements add up to the same |
| `Stock.PlanDocumentMovements` | backend/app/services/documents_service.py:689-728 | the planning loop computes exactly the plan of the line list, or refuses as a whole |
| `Stock.ShortageStops` | backend/app/services/documents_service.py:707-716 | a line refused for shortage refuses every longer document that starts with it |
| `Documents.StockKeysCover` | backend/app/services/documents_service.py:664-672 | the document's own keys are all the plan ever looks up |
| `Planning.PlanReachesFinal` | backend/app/services/documents_service.py:701-728 | the plan ends at the closed form: start plus or minus each product's demand, last quantity for adjustments |
| `Planning.ShipsIffInStock` | backend/app/services/documents_service.py:706-716 | shipping goes through exactly when each product's whole demand was at the source at the start |
| `Planning.ReceivesAlways` | backend/app/services/documents_service.py:704-711 | receipts and adjustments never run short line by line |
| `Planning.PlanMeetsAggregate` | backend/app/services/documents_service.py:689-728 | when the whole plan succeeds and with what quantities, without running it |
| `Planning.ChangesAccountForQuantities` | backend/app/services/documents_service.py:718-725 | the recorded movements sum, per balance, to final minus start for all four types |
| `Planning.TransferConserves` | backend/app/services/documents_service.py:712-725 | a transfer changes no product's total over the warehouses |
| `Planning.PlanIgnoresLineOrder` | backend/app/services/documents_service.py:701-728 | except for adjustments, line order changes neither the verdict nor the quantities |
| `Documents.CheckBeforePost` | backend/app/services/documents_service.py:773-782 | what passes validation can be planned: warehouses set and different, lines present, quantities not negative |
| `Documents.CheckCandidate` | backend/app/services/documents_service.py:814-875 | a validated candidate with lines can be planned |
| `Documents.PostMovesBalances` | backend/app/services/documents_service.py:787-793 | posting adds its movements to every balance and leaves its own balances non-negative |
| `Documents.RepostMovesBalances` | backend/app/services/documents_service.py:895-942 | correcting gives today's balances less the old posting plus the new plan, whatever the baseline dips to |
| `Documents.CancelMovesBalances` | backend/app/services/documents_service.py:991-1011 | cancelling takes exactly the posting in force off every balance |
| `Documents.RepostMovesLog` | backend/app/services/documents_service.py:909-942 | the log moves by the reversed rows and the new rows, balance by balance |
| `Documents.PostKeepsCache` | backend/app/services/documents_service.py:787-793 | balances stay the sums of the log and non-negative over a posting |
| `Documents.RepostKeepsCache` | backend/app/services/documents_service.py:894-942 | the same over a correction |
| `Documents.CancelKeepsCache` | backend/app/services/documents_service.py:986-1012 | the same over a cancellation |
| `Versions.PostKeepsVersions` | backend/app/services/documents_service.py:791-794 | posting applies version one, once, and nothing else |
| `Versions.RepostKeepsVersions` | backend/app/services/documents_service.py:895-942 | a correction takes its version back row for row and applies the next |
| `Versions.CancelKeepsVersions` | backend/app/services/documents_service.py:986-1012 | a cancellation takes the version in force back row for row |
| `Versions.RetiredVersionsCancel` | backend/app/services/documents_service.py:731-762 | the apply and reverse rows of all versions no longer in force cancel per balance |
| `Versions.DocumentNetByVersion` | backend/app/services/documents_service.py:731-762 | everything a document moved is the sum over its versions |
| `Versions.DocumentNetEffect` | backend/app/services/documents_service.py:753-762 | a posted document nets to its current apply rows, which are never none; any other document to zero |
| `Corrections.PlanContentExactly` | backend/app/services/documents_service.py:689-728 | when a document can be planned on given balances, if and only if, and the balances it leaves |
| `Corrections.PlanIsLocal` | backend/app/services/documents_service.py:675-686 | loading more balances than the document's own changes nothing as long as the others are not negative |
| `Corrections.CorrectionSucceedsExactly` | backend/app/services/documents_service.py:895-908 | a correction succeeds if and only if its content fits on the balances without the old posting |
| `Corrections.RepostRefinesCancelThenPost` | backend/app/services/documents_service.py:894-942 | whenever the stock of a document can be taken back and its new content planned afresh, the correction can be planned, with the same balances |
| `Corrections.CorrectingRefines` | backend/app/services/documents_service.py:878-1034 | the same for the service calls with all their checks, for a long enough reason and priced lines |
| `Corrections.UndoExactly` | backend/app/services/documents_service.py:994-998 | the cancel loop succeeds exactly when no partial undo dips, since its check runs inside the loop |
| `Corrections.UndoOfSameSigned` | backend/app/services/documents_service.py:994-998 | for movements of one sign per balance only the final balances matter |
| `Corrections.PlansAreSameSigned` | backend/app/services/documents_service.py:701-725 | all plans except adjustments move each balance one way only |
| `Corrections.AdjustmentCancelled` | backend/app/services/documents_service.py:710-711 | right after posting, with its rows in log order, an adjustment can be cancelled if and only if none of its lines overshoots |
| `Corrections.CancelUndoesPost` | backend/app/services/documents_service.py:977-1034 | cancelling right after posting, with the rows in log order, works exactly so, and restores every balance |
| `Corrections.AdjustmentThatCannotBeCancelled` | backend/app/services/documents_service.py:994-998 | a product counted at ten and then at three posts and cannot be cancelled |
| `AnyOrder.SomeOrderExactly` | backend/app/services/documents_service.py:994-998 | some order of the rows can be undone exactly when nothing ends below zero |
| `AnyOrder.EveryOrderExactly` | backend/app/services/documents_service.py:994-998 | every order can be undone exactly when each balance covers all its rises |
| `AnyOrder.OneSignAnyOrder` | backend/app/services/documents_service.py:994-998 | for movements of one sign per balance, one order works exactly when every order does |
| `AnyOrder.OrderLeavesTheSame` | backend/app/services/documents_service.py:994-998 | whichever order works, the balances left are the same |
| `AnyOrder.CancelInAnyOrder` | backend/app/services/documents_service.py:977-1034 | cancelling right after posting over all orders of the rows, with the exact condition for adjustments |
| `DocumentService.ValidateLines` | backend/app/services/documents_service.py:781-782 | the first bad line decides the fault |
| `DocumentService.LineTotals` | backend/app/services/documents_service.py:245-249 | the total loop is the sum of the rounded line totals |
| `DocumentService.LoadBalanceQuantities` | backend/app/services/documents_service.py:675-686 | every key is loaded, a missing balance as zero |
| `DocumentService.BaselineQuantities` | backend/app/services/documents_service.py:902-905 | the loop takes the whole old posting off, dips allowed |
| `DocumentService.UndoMovements` | backend/app/services/documents_service.py:994-998 | the loop undoes row by row and refuses at the first dip |
| `DocumentService.ApplyBalanceQuantities` | backend/app/services/documents_service.py:765-770 | the planned quantities overwrite, all other balances stay |
| `DocumentService.WriteStockMovements` | backend/app/services/documents_service.py:731-750 | one stamped row per change is appended, in order |
| `DocumentService.ActivePostingMovements` | backend/app/services/documents_service.py:753-762 | the rows applied under the version in force, in log order, which the query itself does not promise |
| `DocumentService.ValidateRepostAllocations` | backend/app/services/documents_service.py:627-650 | what posted payments forbid a correction to change |
| `DocumentService.StoreRevision` | backend/app/services/documents_service.py:292-308 | afterwards the version has a revision; older ones stand as they are, and a new one is the document as it is |
| `DocumentService.PostDocument` | backend/app/services/documents_service.py:773-811 | posting in place is the posting step: status, version, balances, rows, revision, tasks; refused, nothing changes |
| `DocumentService.RepostDocument` | backend/app/services/documents_service.py:878-974 | correcting in place is the correction step, the recovery revision rolled back on failure |
| `DocumentService.CancelDocument` | backend/app/services/documents_service.py:977-1034 | cancelling in place is the cancellation step; a document with active allocations is refused |
| `DocumentService.CreateDocument` | backend/app/services/documents_service.py:416-443 | a valid header becomes an empty draft |
| `DocumentService.AddDocumentLine` | backend/app/services/documents_service.py:446-471 | only drafts, a checked line goes to the end, the total is summed again |
| `DocumentService.UpdateDocumentLine` | backend/app/services/documents_service.py:474-510 | what the patch leaves out stays, the line is checked as a whole, an unknown line is not found |
| `DocumentService.UpdateDocumentHeader` | backend/app/services/documents_service.py:513-565 | partner, warehouses and every line are checked under the new header before anything changes |
| `DocumentService.DeleteDocumentLine` | backend/app/services/documents_service.py:568-579 | only the line goes, and the total is summed again |
| `Money.EditIsRedraft` | backend/app/services/documents_service.py:446-579 | every accepted edit leaves a draft with priced lines and the total of its lines, and nothing else changed |
| `DocumentService.DeleteDraftDocument` | backend/app/services/documents_service.py:582-588 | only drafts can be deleted |
| `DocumentService.ApplyOpeningStock` | backend/app/services/import_service.py:382-402 | each row sets its balance and logs the difference, repeated keys included |
| `DocumentService.ApplyOpeningPartnerBalances` | backend/app/services/import_service.py:405-427 | each row with a balance becomes a posted document at version zero without lines, all of them or none |
| `Logistics.StartKeeps` | backend/app/services/logistics_service.py:224-236 | starting keeps replay, gate, currency and distinctness of all tasks |
| `Logistics.ConfirmKeeps` | backend/app/services/logistics_service.py:259-320 | confirming keeps them, releasing exactly the receiving half of the same transfer |
| `Logistics.ReturnKeeps` | backend/app/services/logistics_service.py:323-339 | returning keeps them |
| `Logistics.CancelActiveKeeps` | backend/app/services/logistics_service.py:172-192 | withdrawing a version's open tasks lets its document move on, and no task is ahead of its document |
| `Logistics.CreateKeeps` | backend/app/services/logistics_service.py:129-169 | a new posting gets each of its tasks once, the receive task blocked behind the dispatch |
| `Logistics.CreateCovers` | backend/app/services/logistics_service.py:129-169 | afterwards the posting has a task for each of its specs, and no other document lost one |
| `TaskService.CreateTasksForDocument` | backend/app/services/logistics_service.py:129-169 | the generation loop adds exactly the missing tasks |
| `TaskService.CancelActiveTasksForDocumentVersion` | backend/app/services/logistics_service.py:172-192 | every open task of the version is cancelled with an event, no other task is touched |
| `TaskService.StartTask` | backend/app/services/logistics_service.py:224-236 | only pending or in-transit tasks start, and the user becomes the assignee |
| `TaskService.ValidateConfirmation` | backend/app/services/logistics_service.py:239-256 | accepted exactly when every line is named once and every deviation has a comment |
| `TaskService.ReportLines` | backend/app/services/logistics_service.py:299-308 | each line gets its reported quantity; a discrepancy is flagged exactly when one deviates |
| `TaskService.ActivateTransferReceive` | backend/app/services/logistics_service.py:259-282 | a finished dispatch lets at most one task through, a blocked receive task of its posting, and leaves none blocked |
| `TaskService.ConfirmTask` | backend/app/services/logistics_service.py:285-320 | confirming in place is the confirmation step; refused, nothing changes |
| `TaskService.ReturnTask` | backend/app/services/logistics_service.py:323-339 | only a reviewer returns, only tasks with discrepancies |
| `Payments.PutPaymentKeeps` | backend/app/services/payments_service.py:150-195 | a payment validated against the others keeps all allocation bounds and types |
| `Payments.RepostKeepsAllocations` | backend/app/services/documents_service.py:627-650 | a correction the document service accepts keeps the bounds the payment service relies on |
| `Payments.UnpaidDocumentKeeps` | backend/app/services/documents_service.py:981-984 | a document without active allocations may become anything, cancelled included |
| `Distribution.PostedAllocatedAmount` | backend/app/services/payments_service.py:131-147 | the posted allocations of a document, over all payments but the excluded one |
| `Distribution.ValidateAllocations` | backend/app/services/payments_service.py:150-195 | the checks in the order and with the faults of the service |
| `Distribution.GetAllocationOptions` | backend/app/services/payments_service.py:212-252 | exactly the open documents of the partner and type, by date and id, with what is left to pay |
| `Distribution.DistributeAutomatically` | frontend/src/pages/Payments.tsx:205-217 | the loop gives each option its share of what the earlier ones left |
| `Distribution.AllocationInputs` | frontend/src/pages/Payments.tsx:22-26 | exactly the positive values are submitted, each document once, whatever else was typed in |
| `Distribution.SharesTotal` | frontend/src/pages/Payments.tsx:205-217 | the shares add up to the smaller of the money and the debt |
| `Distribution.DistributionFillsPrefix` | frontend/src/pages/Payments.tsx:205-217 | a prefix of the options is filled, at most one more in part, none after it |
| `Distribution.DistributionIsAccepted` | backend/app/services/payments_service.py:150-195 | what the form distributes passes the service's validation in the same state |
| `Distribution.DistributeAndSubmit` | frontend/src/pages/Payments.tsx:205-217 | offered, distributed and submitted, the maximum is allocated and accepted |
| `Backfill.BackfillAllocations` | backend/alembic/versions/0011_payment_allocations.py:20-56 | every linked payment once, by date and id; afterwards within payments and documents, and well typed exactly when every type fits |
| `Backfill.MigrationIsBounded` | backend/alembic/versions/0011_payment_allocations.py:20-56 | in whatever order the payments take their turns, none is over-spent and no document over-paid |
| `Backfill.RemainingDebt` | backend/alembic/versions/0011_payment_allocations.py:43-55 | what is left of a document is its total less everything asked of it so far, down to zero |
| `Backfill.AllocatedIffGets` | backend/alembic/versions/0011_payment_allocations.py:40-55 | a posted payment gets an allocation exactly when it asks a posted document with the same partner, or none on both, for something still unpaid |
| `Backfill.FilledExactly` | backend/alembic/versions/0011_payment_allocations.py:35-56 | every linked payment, draft or posted, ends with the smaller of its amount and what the earlier posted ones left of its document, or with nothing |
| `Backfill.MigrationTypesExactly` | backend/alembic/versions/0011_payment_allocations.py:40-48 | the rows are well typed if and only if every payment that gets one is linked to the type of document it may pay |
| `Backfill.FillPayment` | backend/alembic/versions/0011_payment_allocations.py:40-55 | one payment gets all it asks for or all there is; only a posted one uses up the debt; no other payment changes |
| `Backfill.BackfillCanMistype` | backend/alembic/versions/0011_payment_allocations.py:40-48 | linked to a purchase of its partner, or of none, a customer payment or a refund is mistyped, a supplier payment is not |
| `PaymentService.CreatePayment` | backend/app/services/payments_service.py:267-290 | a validated form becomes a draft, a bare document link one allocation of the whole amount |
| `PaymentService.UpdatePayment` | backend/app/services/payments_service.py:293-337 | a patch is validated as a whole before the draft changes |
| `PaymentService.GetPaymentAllocationOptions` | backend/app/services/payments_service.py:212-252 | the options for a partner the payment type allows, or the fault of the partner check |
| `PaymentService.PostPayment` | backend/app/services/payments_service.py:349-398 | payment and cash row are posted together or, if the cash book refuses, neither |
| `PaymentService.ReplacePostedPaymentAllocations` | backend/app/services/payments_service.py:401-442 | a posted payment's allocations are replaced and its cash rows follow the link |
| `PaymentService.CancelPayment` | backend/app/services/payments_service.py:445-465 | the payment's live cash rows and the payment are cancelled together, or nothing is |
| `PaymentService.CreateCashOperation` | backend/app/services/cash_service.py:88-117 | a manual operation must name an existing partner and document |
| `Reconciliation.CountedTwice` | backend/app/services/payments_service.py:131-147 | allocations summed by document and by payment are the same money |
| `Reconciliation.BalanceDecomposes` | backend/app/services/payments_service.py:481-533 | the aggregate is open sales less open purchases less customer advances plus supplier advances and refunds |
| `Reconciliation.OpenItemsAreNonnegative` | backend/app/services/payments_service.py:188-189 | every open item and advance is non-negative, so the clamp at zero never bites |
| `Reconciliation.GetPartnerBalanceValues` | backend/app/services/payments_service.py:481-533 | the grouped sums are each partner's balance, for all partners or the ones asked for |
| `Reconciliation.GetPartnerStatement` | backend/app/services/payments_service.py:557-608 | every row of the partner once, in order, with the balance so far, ending at the aggregate |
| `Ordering.RunningDecidesSafety` | backend/app/services/cash_service.py:66-74 | checking the running balances of the sorted list checks every point in time |
| `Cash.PlaceholderIsFaithful` | backend/app/services/cash_service.py:66 | sorting the pending row under the largest id checks exactly the ledger with the row recorded |
| `Cash.AssertNonnegativeLedger` | backend/app/services/cash_service.py:52-74 | passes exactly when the ledger without the excluded rows and with the pending one never dips |
| `Cash.WalkBook` | backend/app/services/cash_service.py:66-74 | sort, walk, stop at the first negative balance |
| `Cash.CashBalance` | backend/app/services/cash_service.py:218-235 | the database total is the sum of the effects, corrections by their direction |
| `Cash.RecordedBalance` | backend/app/services/cash_service.py:105-117 | a correction ends exactly at its target, any other operation moves the balance by its amount |
| `Cash.CashTable.CreateCashOperation` | backend/app/services/cash_service.py:103-153 | recorded in place exactly when the request is bookable and the book stays non-negative |
| `Cash.CashTable.CancelCashOperation` | backend/app/services/cash_service.py:156-175 | cancelled in place exactly when the book without it stays non-negative |
| `Cash.CashTable.CancelPaymentCashOperations` | backend/app/services/cash_service.py:178-200 | all live rows of the payment together, or none |
| `CashBook.GetCashBook` | backend/app/services/cash_service.py:312-323 | the forward book with running balances, ending at the cash balance |
| `CashBook.GetCashBookPage` | backend/app/services/cash_service.py:260-309 | a page walked backwards is the slice of the reversed full book, for every offset and limit |
| `CashBook.PageEnds` | backend/app/services/cash_service.py:278-308 | a page closes with the balance after its newest row and opens with the one before its oldest |
| `CashBook.PagesMeet` | backend/app/services/cash_service.py:278-308 | a page opens where the next one closes, the last one at zero |
| `CashBook.PagesCoverBook` | backend/app/services/cash_service.py:260-309 | the pages in turn are the whole book backwards |
| `Engine.PostKeepsDocuments` | backend/app/services/documents_service.py:773-811 | posting keeps cache, versions, revisions, worth and tasks together |
| `Engine.RepostKeepsDocuments` | backend/app/services/documents_service.py:878-974 | so does correcting |
| `Engine.CancelKeepsDocuments` | backend/app/services/documents_service.py:977-1034 | so does cancelling |
| `Engine.EditKeepsDocuments` | backend/app/services/documents_service.py:446-579 | so does every edit of a draft |
| `Money.RepostKeepsAllocations` | backend/app/services/documents_service.py:627-650 | a correction keeps the allocations of every payment valid |
| `Money.PaymentStepKeepsAllocations` | backend/app/services/payments_service.py:150-195 | so does every payment step |
| `Money.PostPaymentKeepsLedger` | backend/app/services/payments_service.py:349-398 | posting a payment keeps the cash book non-negative and the one-row mirror |
| `Money.ReplaceKeepsLedger` | backend/app/services/payments_service.py:401-442 | so does reallocating |
| `Money.CancelPaymentKeepsLedger` | backend/app/services/payments_service.py:445-465 | so does cancelling |
| `Money.RunKeepsAllocations` | backend/app/services/payments_service.py:150-195 | over every run the allocation bounds and types stay, whatever the state of the stock side |
| `Money.RunKeepsLedger` | backend/app/services/cash_service.py:52-74 | over every run the ledger never dips and mirrors the payments |
| `Engine.CountsKeepBooks` | backend/app/services/import_service.py:382-402 | the import keeps cache and versions |
| `Engine.DebtsKeepDocuments` | backend/app/services/import_service.py:405-427 | so does importing opening debts |
| `Engine.ImportedBalances` | backend/app/services/import_service.py:384-391 | every imported balance ends at its last count |
| `Engine.RunKeepsDocuments` | backend/app/services/documents_service.py:773-1034 | over every run cache, versions, revisions, totals and tasks stay in order together |
| `Engine.RunKeeps` | backend/app/services/documents_service.py:773-1034 | every run of every service keeps the whole database in order |
| `History.RunExtends` | backend/app/services/documents_service.py:292-308 | movements, revisions, task events and cash rows are only added to; a task keeps asking for the same; a cancelled cash row stays cancelled, and only its document link may still follow its payment |
| `History.LinkMovesExactly` | backend/app/services/payments_service.py:424-427 | a cash row's document changes exactly when its payment is reallocated, and then to the payment's single document or none |
| `Reachable.BalancesAreTheLog` | backend/app/services/documents_service.py:765-770 | in every reachable state each balance is the sum of its movements and not negative |
| `Reachable.DocumentsNetToTheirVersion` | backend/app/services/documents_service.py:753-762 | in every reachable state a document nets to its version in force |
| `Reachable.RevisionsAreExact` | backend/app/services/documents_service.py:292-308 | revisions are exactly one to the version, the last one the document as it stands |
| `Reachable.AllocationsAreValid` | backend/app/services/payments_service.py:150-195 | distinct posted documents of the partner and type, within payment and document |
| `Reachable.OnlySupportedPaymentsEnter` | backend/app/services/payments_service.py:68-98 | no run from an empty database ever holds a refund or a payment without a partner |
| `Reachable.EveryBalanceReconciles` | backend/app/services/payments_service.py:481-533 | in every reachable state the balance is open sales less open purchases, less customer and plus supplier advances, none of them negative |
| `Reachable.ClampNeverBites` | backend/app/services/payments_service.py:188 | the outstanding amount is total less allocated, unclamped |
| `Reachable.ReallocationMovesNoMoney` | backend/app/services/payments_service.py:401-442 | reallocating moves no partner's balance and no cash |
| `Reachable.ReallocationTradesDebtForAdvance` | backend/app/services/payments_service.py:401-442 | what it takes off open items it gives back as advance, wherever the allocations are in order |
| `Reachable.CashBookNeverDips` | backend/app/services/cash_service.py:66-74 | every running balance of the book in every reachable state is non-negative |
| `Reachable.CashRowsMirrorPayments` | backend/app/services/cash_service.py:178-200 | a payment's cash row repeats it, is the only one, and is in force only while the payment is posted |
| `Reachable.PostedPaymentsAreBooked` | backend/app/services/payments_service.py:370-386 | a payment has a cash row if and only if it was ever posted |
| `Reachable.PostingsHaveTheirTasks` | backend/app/services/logistics_service.py:129-169 | every posting in force has each of its tasks, and no task twice |
| `Reachable.TasksFollowPostings` | backend/app/services/logistics_service.py:92-192 | open tasks belong to the posting in force, receipts wait for dispatch, completed lines match, events replay |
| `Reachable.PostingPaymentConserves` | backend/app/services/payments_service.py:349-398 | posting a payment moves its amount between its partner and the till and no other balance |
| `Reachable.CancellingPaymentConserves` | backend/app/services/payments_service.py:445-465 | cancelling one whose cash row is in force takes the same money back; a payment without a partner moves no balance |
| `Reachable.OpeningBalancesCount` | backend/app/services/import_service.py:405-427 | what is imported for a partner, row by row, is what the partner's balance grows by |
| `Ledger.CancelledExactly` | backend/app/services/cash_service.py:156-200 | a cash row is cancelled exactly when somebody cancelled it or its payment was cancelled, so a posted payment's is live exactly while nobody cancelled it |
| `Ledger.PostedWithoutLiveRow` | backend/app/services/cash_service.py:156-175 | take in, post, cancel the row: the payment stays posted without a live row |
| `Migrated.MigratedStaysBounded` | backend/alembic/versions/0011_payment_allocations.py:20-56 | the bounds the migration sets up hold after every later run, whatever the state of the stock side |
| `Migrated.MigratedReconciles` | backend/alembic/versions/0011_payment_allocations.py:20-56 | where every type fits, the reconciliation identity holds after every later run |
| `Migrated.MigratedStaysInOrder` | backend/alembic/versions/0011_payment_allocations.py:20-56 | where stock and ledger were in order, everything is in order after every later run |
| `DocumentRules.PartnerExactly` | backend/app/services/documents_service.py:337-365 | a purchase needs a supplier, a sale a customer, a transfer nobody; an adjustment takes anybody |
| `DocumentRules.PlacesExactly` | backend/app/services/documents_service.py:591-610 | a known warehouse, and a known other one for a transfer and for nothing else; a draft may still lack them |
| `DocumentRules.LinesExactly` | backend/app/services/documents_service.py:386-400 | every line has an active product and some quantity, in a count perhaps none |
| `DocumentRules.FitsExactly` | backend/app/services/documents_service.py:773-782 | the checks before posting and those of a correction ask for the same: partner, warehouses, lines |
| `DocumentRules.LineTotalExactly` | backend/app/services/documents_service.py:53-54 | a line total is quantity times price, at most half a cent off, on a tie the even cent |
| `DocumentRules.TotalIsSum` | backend/app/services/documents_service.py:245-249 | a document is worth the sum of its lines rounded one by one |
| `DocumentRules.TotalIsClose` | backend/app/services/documents_service.py:245-249 | a total is off by at most half a cent a line |
| `DocumentRules.DraftedExactly` | backend/app/services/documents_service.py:416-443 | a draft is created exactly when its id is free and partner and warehouses fit, empty and worth nothing |
| `DocumentRules.LineAddedExactly` | backend/app/services/documents_service.py:446-471 | a line is added at the end exactly when the document is a draft and the line fits |
| `DocumentRules.LineChangedExactly` | backend/app/services/documents_service.py:474-510 | what is not given stays; accepted exactly when the changed line fits |
| `DocumentRules.LineDeletedExactly` | backend/app/services/documents_service.py:568-579 | exactly a line that is there goes, and only from a draft |
| `DocumentRules.HeaderChangedExactly` | backend/app/services/documents_service.py:513-565 | field by field what a changed header leaves, accepted exactly when partner, warehouses and all lines fit under it |
| `DocumentRules.DraftDeletedExactly` | backend/app/services/documents_service.py:582-588 | exactly a draft is deleted, and no other document changes |
| `DocumentRules.DebtsImportedExactly` | backend/app/services/import_service.py:405-427 | imported exactly when partners are known and ids free; every row that is not zero becomes a posted sale or purchase of that date and amount, no other document appears or changes |
| `DocumentRules.CountsImportedExactly` | backend/app/services/import_service.py:382-402 | imported exactly when products and warehouses are known and no count is negative; each balance is its last count |
| `PostingRules.PlanExactly` | backend/app/services/documents_service.py:689-728 | a plan succeeds exactly when each product's demand is at the document's warehouse and nothing ends below zero, and ends as said for warehouse and destination |
| `PostingRules.PostedExactly` | backend/app/services/documents_service.py:773-811 | where no balance is below zero, as the table guarantees and every run keeps: posted exactly when the document fits and what it ships is at its warehouse; the warehouse gives or takes the demand or is set to the last count, a transfer's destination takes the demand, every other balance stands |
| `PostingRules.NoRunLeavesNegative` | backend/app/models/stock.py:71 | no run leaves a balance below zero, so the acceptance conditions hold in every reachable state |
| `PostingRules.PostingRefused` | backend/app/services/documents_service.py:773-809 | a missing document is not found; one that is no draft, or too little stock, conflicts |
| `PostingRules.CorrectedExactly` | backend/app/services/documents_service.py:878-974 | corrected exactly when the reason is long enough, the new content fits, what was paid allows it, and it fits on the balances without the old posting; every balance ends as the new content says on those |
| `PostingRules.CancelledExactly` | backend/app/services/documents_service.py:977-1034 | cancelled exactly when posted, unpaid, its warehouses there and its rows can be taken back; every balance is left without them |
| `PostingRules.PostingPerforms` | backend/app/services/documents_service.py:784-806 | what posting does to the stock is what its transaction does alone |
| `PostingRules.CorrectingPerforms` | backend/app/services/documents_service.py:893-942 | so for correcting |
| `PostingRules.CancellingPerforms` | backend/app/services/documents_service.py:986-1012 | so for cancelling |
| `TaskRules.CreatesAsDemanded` | backend/app/services/logistics_service.py:92-169 | generation adds the tasks the content asks for, at its warehouse or destination, line for line, pending or blocked, and no others |
| `TaskRules.PostingsHaveWhatTheyAskFor` | backend/app/services/logistics_service.py:92-169 | in every reachable state every posting, old ones included, has exactly its tasks at the right places, none for anything else and none twice |
| `TaskRules.PostingInForceHasItsTasks` | backend/app/services/logistics_service.py:129-169 | the tasks of the version in force ask for what the document says now |
| `TaskRules.StartedExactly` | backend/app/services/logistics_service.py:224-236 | started exactly by who sees it while it waits or is on its way; it is theirs from then on, with an event |
| `TaskRules.ConfirmedExactly` | backend/app/services/logistics_service.py:285-320 | confirmed exactly by its assignee or a reviewer on a complete report; each line carries what was reported and whether it deviates, the task is done exactly if none does, and then the first waiting receipt of a dispatch is let through |
| `TaskRules.ReturnedExactly` | backend/app/services/logistics_service.py:323-339 | returned exactly by a reviewer from review, to nobody, lines unconfirmed and quantities kept |
| `TaskRules.WithdrawnExactly` | backend/app/services/logistics_service.py:172-192 | exactly the posting's tasks that are neither done nor cancelled are cancelled, with an event |
| `PaymentRules.PayerExactly` | backend/app/services/payments_service.py:68-98 | in cash, from a customer or to a supplier who is known, and no refund |
| `PaymentRules.TakenIsAllocated` | backend/app/services/payments_service.py:131-147 | what the service sums is every allocation of every posted payment to the document |
| `PaymentRules.AllocationsExactly` | backend/app/services/payments_service.py:150-195 | accepted exactly when positive, on distinct posted documents of the partner and the matching type, within the payment and within what other posted payments left |
| `PaymentRules.MayBecomeExactly` | backend/app/services/documents_service.py:627-650 | a correction passes exactly when nobody paid, or partner, payment types and amount taken all allow it |
| `PaymentRules.CreatedExactly` | backend/app/services/payments_service.py:267-290 | a draft is accepted exactly when payer, amount and allocations fit, and every field of it |
| `PaymentRules.UpdatedExactly` | backend/app/services/payments_service.py:293-337 | field by field what a patch leaves, accepted exactly when it would be as a new draft |
| `PaymentRules.DeletedExactly` | backend/app/services/payments_service.py:340-346 | exactly a draft is deleted, and no other payment changes |
| `PaymentRules.PostedExactly` | backend/app/services/payments_service.py:349-398 | posted exactly when payer, allocations and amount fit and with its row, in or out on its date, the cash is never short on any day after any row |
| `PaymentRules.ReallocatedExactly` | backend/app/services/payments_service.py:401-442 | reallocated exactly when the new allocations fit beside the other payments; the payment's cash rows name the one document or none |
| `PaymentRules.CancelledExactly` | backend/app/services/payments_service.py:445-465 | cancelled exactly when posted and without all its rows the cash is never short |
| `PaymentRules.ManualExactly` | backend/app/services/cash_service.py:88-153 | a manual operation is recorded exactly when what it names is there, it is complete, and with its row the cash is never short |
| `PaymentRules.ManualCancelledExactly` | backend/app/services/cash_service.py:156-175 | a row is cancelled by hand exactly when live and without it the cash is never short |
| `PaymentRules.OfferedExactly` | backend/app/services/payments_service.py:212-252 | an option is a document a payment could be allocated to, with all that is left of it, under its date and id |
| `LedgerRules.NeverNegativeExactly` | backend/app/services/cash_service.py:52-74 | the ledger check passes exactly when for every day and row number the signed live rows before the day, or on it up to the number, sum to at least nothing |
| `LedgerRules.TillIsBalance` | backend/app/services/cash_service.py:218-235 | the cash balance is the sum of the live rows, in or out by type or by a correction's direction |
| `LedgerRules.CreatedExactly` | backend/app/services/cash_service.py:88-153 | recorded exactly when complete and with its row, field by field, the cash is never short |
| `LedgerRules.CancelledExactly` | backend/app/services/cash_service.py:156-175 | cancelled exactly when live and without it the cash is never short |
| `LedgerRules.PaymentCancelledExactly` | backend/app/services/cash_service.py:178-200 | a payment's rows are cancelled together exactly when without them the cash is never short |
| `LedgerRules.BookIsByDate` | backend/app/services/cash_service.py:312-323 | the book lists every row by day and number, each with the cash after it |
| `StatementRules.BalanceIsSum` | backend/app/services/payments_service.py:43-65 | posted sales and purchases and posted payments count with their sign for their partner, nothing else does |
| `StatementRules.ListedExactly` | backend/app/services/payments_service.py:557-608 | a statement lists every document and payment of the partner under its own date with what it counts for |
| `StatementRules.SortedExactly` | backend/app/services/payments_service.py:591 | by date, on a day documents before payments, then by id |
| `Locks.OutcomeIsPerform` | backend/app/services/documents_service.py:784-806 | a transaction on fresh copies answers and writes what it would alone |
| `Locks.PublishLeavesOthers` | backend/app/services/documents_service.py:765-770 | absolute writes touch no other document and no unlocked balance |
| `Locks.FinishKeeps` | backend/app/services/documents_service.py:784-806 | a commit keeps every other transaction's copies fresh and the history serial |
| `Locks.SerialEquivalence` | backend/app/services/documents_service.py:238-242 | any interleaving gives the store and the answers of a serial execution |
| `Locks.InterleavingKeepsBooks` | backend/app/services/documents_service.py:784-806 | so cache and versions hold under any interleaving |
| `Locks.GreatestNextIsFree` | backend/app/services/documents_service.py:238-242 | with keys taken in increasing order, the greatest key asked for is held by nobody |
| `Locks.SomeoneCanMove` | backend/app/services/documents_service.py:238-242 | deadlock freedom: in a good state with an unfinished transaction some transaction can move on |
| `Locks.EveryMoveShrinks` | backend/app/services/documents_service.py:238-242 | every move leaves less to do, so without newcomers all of them end |
| `Locks.EveryoneCanFinish` | backend/app/services/documents_service.py:238-242 | from every good state everybody can finish and nobody has to give up |
| `Locks.InterleavingNeverStops` | backend/app/services/documents_service.py:238-242 | whatever was interleaved so far, while one transaction is unfinished some transaction can move on |
| `Locks.InterleavingCanFinish` | backend/app/services/documents_service.py:238-242 | every interleaving can be continued, without newcomers or aborts, to one in which all have ended |
| `Groups.EnsureParentExists` | backend/app/services/directory_service.py:84-113 | on any table the walk ends, and answers ok, missing or cycle exactly when the ancestors say so |
| `Groups.NoCycles` | backend/app/services/directory_service.py:84-113 | in a forest nothing is its own ancestor |
| `Groups.HangingKeepsForest` | backend/app/services/directory_service.py:116-147 | hanging a group under an accepted parent keeps the forest |
| `Groups.ClearMeansNoAncestor` | backend/app/services/directory_service.py:94-113 | on a forest the check accepts exactly existing parents the group is not above |
| `Groups.DeletingKeepsForest` | backend/app/services/directory_service.py:150-164 | deleting a childless group keeps the forest |
| `Groups.GroupTable.CreateProductGroup` | backend/app/services/directory_service.py:116-128 | created exactly when the name is free and the parent exists; the forest stays |
| `Groups.GroupTable.UpdateProductGroup` | backend/app/services/directory_service.py:131-147 | moved exactly when the new parent exists and is not below the group; the forest stays |
| `Groups.GroupTable.DeleteProductGroup` | backend/app/services/directory_service.py:150-164 | deleted exactly when no product and no group uses it; the forest stays |
| `GroupTree.DescendantMap.CollectDescendants` | frontend/src/pages/Products.tsx:67-80 | whatever the parents, the memoised recursion ends and keeps every entry right: only groups below, all of them off a cycle |
| `GroupTree.DescendantsByGroup` | frontend/src/pages/Products.tsx:64-84 | every group has an entry without itself, and it is strict reachability if and only if the group is on no cycle |
| `GroupTree.OptionList.Visit` | frontend/src/pages/Products.tsx:90-95 | the visiting closure in place does what the visiting function says |
| `GroupTree.OptionsShowEachOnce` | frontend/src/pages/Products.tsx:86-100 | every group is listed exactly once, even if the parents run in circles |
| `GroupTree.OptionsFollowHierarchy` | frontend/src/pages/Products.tsx:86-100 | on a forest each row stands under its parent's, one deeper, and only roots are at the top |
| `GroupTree.IndentedByDepth` | frontend/src/pages/Products.tsx:86-100 | the indentation of a row is its group's depth |
| `GroupTree.GroupOptions` | frontend/src/pages/Products.tsx:86-100 | the list the page builds has both properties |
| `GroupTree.ProductCountByGroup` | frontend/src/pages/Products.tsx:102-112 | the shown count is the group's own products plus those of its entry; where the entry is complete, the whole subtree |
| `GroupTree.CountsAddUp` | frontend/src/pages/Products.tsx:102-112 | a count is the direct count plus the children's counts |
| `RunLength.RleDecompress` | tools/interbase/gdb_reader.py:112-129 | on arbitrary bytes it ends, with at most 64 times the input |
| `RunLength.DecodesWhatWasEncoded` | tools/interbase/gdb_reader.py:112-129 | decoding inverts encoding, with or without a zero terminator and leftovers |

## Left out

- Routes, schemas, permissions, passwords, tokens, audit rows, metrics, exports and page rendering: plumbing. The schema checks the engine relies on (positive amounts, non-negative prices, at least one line in a correction, a reason of three characters) are part of the steps that need them.
- Database mechanics: sessions, flush order and identity map. Tables are maps and sequences, ids are chosen by the caller of a step and must be free.
- Document numbers, the opening documents' included, currencies and exchange rates: a document's lines carry their base price, and an edit takes the price the conversion gives as a parameter.
- DocumentService.ActivePostingMovements: gives the rows in log order; neither that query nor a document's lines has an ORDER BY. Cancelling over every order of the rows is `AnyOrder`; lines are taken in the order they were added, which matters to adjustments only.
- DocumentService.RepostDocument: takes the reason by its length without surrounding blanks; the text itself is not kept in the revision.
- Locks: claims concurrency for the stock lock layer on PostgreSQL only. Draft edits take no document lock, task row locks are taken without an order, SQLite takes no advisory locks, and the opening-stock import takes none either.
- Locks.SerialEquivalence: treats the hashed advisory key of a balance as injective, so two balances never share a lock.
- Locks.SerialEquivalence: leaves the payment rows a correction or cancellation also reads to the aborts, which may happen at any point.
- Payments under concurrency: a row already loaded in a session is not refreshed by locking it, so no interleaving result is claimed for them.
- Refunds and payments without a partner: the services refuse to create, edit or post them, so they occur only as migrated rows; the reconciliation identity carries refunds as a separate term, and a row without a partner counts for nobody.
- PaymentService.UpdatePayment: a patch cannot set the type, method or amount to nothing, which the service refuses; an empty partner is modelled.
- Cash.CashTable.CreateCashOperation: requires fewer rows than the placeholder id, 2^63 - 1, which is the width of the id column.
- The cash report's running balance ignores a correction's direction (reports_service.py:178-186) and so does not agree with the cash book; it is not modelled.
- Timestamps, notes and sale prices of tasks, and listing and serialising them.
- GroupTree.DescendantsByGroup: for a group on a cycle says only that its entry holds some of the groups below it; which ones depends on the order of the list.
- Products, units, prices, imports of reference data, number-to-words, markup and login lockout: self-contained and easy.
- Paging of InterBase records beyond the run-length decoder.
