/** What no run ever takes back. */
module History {
  import opened Common
  import opened Books
  import S = Stock
  import D = Documents
  import L = Logistics
  import P = Payments
  import C = Cash

  // ------------------------------------------------------------ what is never taken back

  /** A posted document stays, its version only grows, and a cancelled one never changes again. */
  predicate DocumentsExtend(before: P.DocTable, after: P.DocTable)
  {
    forall d :: d in before && before[d].status != D.Draft ==>
      && d in after
      && after[d].status != D.Draft
      && after[d].version >= before[d].version
      && (before[d].status == D.Cancelled ==> after[d] == before[d])
  }

  predicate RevisionsExtend(before: map<Posting, Revision>, after: map<Posting, Revision>)
  {
    forall p :: p in before ==> p in after && after[p] == before[p]
  }

  /** Line for line the same product is expected in the same quantity. */
  predicate SameDemand(before: seq<L.TaskLine>, after: seq<L.TaskLine>)
  {
    |after| == |before|
    && forall n :: 0 <= n < |before| ==>
         after[n].product == before[n].product && after[n].expected == before[n].expected
  }

  predicate TaskExtends(before: L.Task, after: L.Task)
  {
    && L.SamePosting(before, after) && before.kind == after.kind && before.warehouse == after.warehouse
    && SameDemand(before.lines, after.lines)
    && before.events <= after.events
    && (before.status in {L.Completed, L.Cancelled} ==> after == before)
  }

  predicate TasksExtend(before: seq<L.Task>, after: seq<L.Task>)
  {
    |before| <= |after| && forall i :: 0 <= i < |before| ==> TaskExtends(before[i], after[i])
  }

  predicate PaymentsExtend(before: P.PayTable, after: P.PayTable)
  {
    forall id :: id in before && before[id].status != D.Draft ==>
      && id in after
      && after[id].status != D.Draft
      && (after[id].partner, after[id].payType, after[id].amount, after[id].date)
         == (before[id].partner, before[id].payType, before[id].amount, before[id].date)
      && (before[id].status == D.Cancelled ==> after[id] == before[id])
  }

  /**
   A cash row keeps its place and what it says. All it can do is be cancelled, once, and follow its payment's
   link; a row without a payment keeps its document.
   */
  predicate CashExtends(before: seq<C.CashOp>, after: seq<C.CashOp>)
  {
    && |before| <= |after|
    && forall i :: 0 <= i < |before| ==>
         && after[i] == before[i].(status := after[i].status, document := after[i].document)
         && (before[i].status == C.Cancelled ==> after[i].status == C.Cancelled)
         && (before[i].payment.None? ==> after[i].document == before[i].document)
  }

  predicate Extends(before: Books, after: Books)
  {
    && before.store.log <= after.store.log
    && DocumentsExtend(before.store.docs, after.store.docs)
    && RevisionsExtend(before.revisions, after.revisions)
    && TasksExtend(before.tasks, after.tasks)
    && PaymentsExtend(before.payments, after.payments)
    && CashExtends(before.cash, after.cash)
  }

  lemma {:induction false} AddedTasksExtend(tasks: seq<L.Task>, id: int, doc: D.Document, specs: seq<L.Spec>)
    ensures tasks <= L.AddTasks(tasks, id, doc, specs)
  {
    if |specs| > 0 {
      AddedTasksExtend(tasks, id, doc, specs[..|specs| - 1]);
    }
  }

  lemma CreatedTasksExtend(before: seq<L.Task>, tasks: seq<L.Task>, id: int, doc: D.Document)
    requires TasksExtend(before, tasks)
    ensures TasksExtend(before, L.CreateTasks(tasks, id, doc))
  {
    AddedTasksExtend(tasks, id, doc, L.Specs(doc.content));
  }

  lemma {:induction false} ImportExtends(store: D.Store, rows: seq<Count>)
    ensures store.log <= ImportRows(store, rows).log && ImportRows(store, rows).docs == store.docs
  {
    if |rows| > 0 {
      ImportExtends(store, rows[..|rows| - 1]);
    }
  }

  lemma ConfirmExtends(tasks: seq<L.Task>, i: int, payload: seq<L.Confirmation>, user: L.User)
    ensures L.Confirm(tasks, i, payload, user).Ok? ==> TasksExtend(tasks, L.Confirm(tasks, i, payload, user).value)
  {
    if L.Confirm(tasks, i, payload, user).Ok? {
      var task := L.ConfirmedTask(tasks[i], payload);
      var updated := tasks[i := task];
      var n := L.FirstBlocked(updated, task.doc, task.version);
      assert TaskExtends(tasks[i], task);
      assert TasksExtend(tasks, updated);
      if task.status == L.Completed && task.kind == L.TransferDispatch && n < |tasks| {
        assert n != i;
        assert TaskExtends(updated[n], L.Move(updated[n], L.Unblocked, L.InTransit));
      }
    }
  }

  lemma StoredRevisionsExtend(revisions: map<Posting, Revision>, id: int, doc: D.Document)
    ensures RevisionsExtend(revisions, StoreRevision(revisions, id, doc))
  {
  }

  lemma PostStoreExtends(s: D.Store, id: int)
    requires id in s.docs && D.Ready(s.docs[id].content) && s.docs[id].status == D.Draft && D.Post(s, id).Ok?
    ensures s.log <= D.Post(s, id).value.log && DocumentsExtend(s.docs, D.Post(s, id).value.docs)
  {
    D.PostWrites(s, id);
  }

  lemma PostExtends(b: Books, id: int)
    ensures PostDocument(b, id).Ok? ==> Extends(b, PostDocument(b, id).value)
  {
    var r := PostDocument(b, id);
    if r.Ok? {
      PostStoreExtends(b.store, id);
      StoredRevisionsExtend(b.revisions, id, r.value.store.docs[id]);
      CreatedTasksExtend(b.tasks, b.tasks, id, r.value.store.docs[id]);
    }
  }

  lemma RepostStoreExtends(s: D.Store, id: int, content: S.Content)
    requires id in s.docs && D.Ready(content) && s.docs[id].status == D.Posted && D.Repost(s, id, content).Ok?
    ensures s.log <= D.Repost(s, id, content).value.log && DocumentsExtend(s.docs, D.Repost(s, id, content).value.docs)
  {
    D.RepostWrites(s, id, content);
  }

  lemma WithdrawnTasksExtend(tasks: seq<L.Task>, id: int, version: int)
    ensures TasksExtend(tasks, L.CancelActive(tasks, id, version))
  {
  }

  lemma CorrectedExtends(b: Books, id: int, content: S.Content)
    requires |content.lines| > 0 && id in b.store.docs && b.store.docs[id].status == D.Posted
    ensures Corrected(b, id, content).Ok? ==> Extends(b, Corrected(b, id, content).value)
  {
    var r := Corrected(b, id, content);
    if r.Ok? {
      var before, after := b.store.docs[id], r.value.store.docs[id];
      RepostStoreExtends(b.store, id, content);
      StoredRevisionsExtend(b.revisions, id, before);
      StoredRevisionsExtend(StoreRevision(b.revisions, id, before), id, after);
      WithdrawnTasksExtend(b.tasks, id, before.version);
      CreatedTasksExtend(b.tasks, L.CancelActive(b.tasks, id, before.version), id, after);
    }
  }

  lemma CancelExtends(b: Books, id: int)
    ensures CancelDocument(b, id).Ok? ==> Extends(b, CancelDocument(b, id).value)
  {
    if CancelDocument(b, id).Ok? {
      D.CancelWrites(b.store, id);
      WithdrawnTasksExtend(b.tasks, id, b.store.docs[id].version);
    }
  }

  lemma CashRowsExtend(ops: seq<C.CashOp>, excluded: set<int>, payment: int, link: Option<int>)
    ensures CashExtends(ops, C.Without(ops, excluded)) && CashExtends(ops, Relinked(ops, payment, link))
  {
  }

  lemma ReplaceExtends(b: Books, id: int, allocations: seq<P.Allocation>)
    ensures ReplaceAllocations(b, id, allocations).Ok? ==> Extends(b, ReplaceAllocations(b, id, allocations).value)
  {
    CashRowsExtend(b.cash, {}, id, Link(allocations));
  }

  lemma CancelPaymentExtends(b: Books, id: int)
    ensures CancelPayment(b, id).Ok? ==> Extends(b, CancelPayment(b, id).value)
  {
    CashRowsExtend(b.cash, C.LiveRowsOf(b.cash, id), id, None);
  }

  lemma CancelCashExtends(b: Books, id: int)
    ensures CancelCash(b, id).Ok? ==> Extends(b, CancelCash(b, id).value)
  {
    CashRowsExtend(b.cash, {id}, 0, None);
  }

  lemma DraftPaymentStepExtends(b: Books, command: PaymentCommand)
    requires command.CreatingPayment? || command.UpdatingPayment? || command.DeletingPayment?
    ensures PaymentStep(b, command).Ok? ==> Extends(b, PaymentStep(b, command).value)
  {
  }

  lemma BookingStepExtends(b: Books, command: PaymentCommand)
    requires command.PostingPayment? || command.CreatingCash?
    ensures PaymentStep(b, command).Ok? ==> Extends(b, PaymentStep(b, command).value)
  {
  }

  lemma PaymentStepExtends(b: Books, command: PaymentCommand)
    ensures PaymentStep(b, command).Ok? ==> Extends(b, PaymentStep(b, command).value)
  {
    match command
    case ReplacingAllocations(id, allocations) => ReplaceExtends(b, id, allocations);
    case CancellingPayment(id) => CancelPaymentExtends(b, id);
    case CancellingCash(id) => CancelCashExtends(b, id);
    case PostingPayment(_) => BookingStepExtends(b, command);
    case CreatingCash(_) => BookingStepExtends(b, command);
    case _ => DraftPaymentStepExtends(b, command);
  }

  lemma {:induction false} DebtsExtend(docs: map<int, D.Document>, date: int, rows: seq<Debt>)
    ensures ImportDebts(docs, date, rows).Ok? ==>
      DocumentsExtend(docs, ImportDebts(docs, date, rows).value)
      && docs.Keys <= ImportDebts(docs, date, rows).value.Keys
  {
    if |rows| > 0 {
      DebtsExtend(docs, date, rows[..|rows| - 1]);
    }
  }

  lemma CreateDraftExtends(b: Books, id: int, content: S.Content)
    ensures CreateDraft(b, id, content).Ok? ==> Extends(b, CreateDraft(b, id, content).value)
  {
  }

  lemma RedraftExtends(b: Books, id: int, content: S.Content)
    requires CheckDraftEdit(b, id).None?
    ensures Extends(b, Redrafted(b, id, content))
  {
  }

  /** Every edit is refused or redrafts. */
  lemma AddLineExtends(b: Books, id: int, line: S.Line)
    ensures AddLine(b, id, line).Ok? ==> Extends(b, AddLine(b, id, line).value)
  {
    if AddLine(b, id, line).Ok? {
      var content := b.store.docs[id].content;
      RedraftExtends(b, id, content.(lines := content.lines + [line]));
    }
  }

  lemma ChangeLineExtends(b: Books, id: int, n: int, patch: LinePatch)
    ensures ChangeLine(b, id, n, patch).Ok? ==> Extends(b, ChangeLine(b, id, n, patch).value)
  {
    if ChangeLine(b, id, n, patch).Ok? {
      var content := b.store.docs[id].content;
      RedraftExtends(b, id, content.(lines := content.lines[n := PatchedLine(content.lines[n], patch)]));
    }
  }

  lemma DeleteLineExtends(b: Books, id: int, n: int)
    ensures DeleteLine(b, id, n).Ok? ==> Extends(b, DeleteLine(b, id, n).value)
  {
    if DeleteLine(b, id, n).Ok? {
      var content := b.store.docs[id].content;
      RedraftExtends(b, id, content.(lines := content.lines[..n] + content.lines[n + 1..]));
    }
  }

  lemma ChangeHeaderExtends(b: Books, id: int, header: HeaderPatch, prices: seq<int>)
    ensures ChangeHeader(b, id, header, prices).Ok? ==> Extends(b, ChangeHeader(b, id, header, prices).value)
  {
    if ChangeHeader(b, id, header, prices).Ok? {
      RedraftExtends(b, id, PatchedHeader(b.store.docs[id].content, header, prices));
    }
  }

  lemma DeleteDraftExtends(b: Books, id: int)
    ensures DeleteDraft(b, id).Ok? ==> Extends(b, DeleteDraft(b, id).value)
  {
  }

  lemma RepostExtends(b: Books, id: int, content: S.Content, reason: nat)
    ensures RepostDocument(b, id, content, reason).Ok? ==> Extends(b, RepostDocument(b, id, content, reason).value)
  {
    if RepostDocument(b, id, content, reason).Ok? {
      CorrectedExtends(b, id, content);
    }
  }

  lemma StockImportExtends(b: Books, counts: seq<Count>)
    ensures ImportOpeningStock(b, counts).Ok? ==> Extends(b, ImportOpeningStock(b, counts).value)
  {
    ImportExtends(b.store, counts);
  }

  lemma DebtImportExtends(b: Books, date: int, debts: seq<Debt>)
    ensures ImportOpeningBalances(b, date, debts).Ok? ==> Extends(b, ImportOpeningBalances(b, date, debts).value)
  {
    DebtsExtend(b.store.docs, date, debts);
  }

  lemma DocumentStepExtends(b: Books, command: DocumentCommand)
    ensures DocumentStep(b, command).Ok? ==> Extends(b, DocumentStep(b, command).value)
  {
    match command
    case PostingDocument(id) => PostExtends(b, id);
    case RepostingDocument(id, content, reason) => RepostExtends(b, id, content, reason);
    case CancellingDocument(id) => CancelExtends(b, id);
    case ImportingStock(counts) => StockImportExtends(b, counts);
    case ImportingBalances(date, debts) => DebtImportExtends(b, date, debts);
    case CreatingDraft(id, content) => CreateDraftExtends(b, id, content);
    case AddingLine(id, line) => AddLineExtends(b, id, line);
    case ChangingLine(id, n, patch) => ChangeLineExtends(b, id, n, patch);
    case DeletingLine(id, n) => DeleteLineExtends(b, id, n);
    case ChangingHeader(id, header, prices) => ChangeHeaderExtends(b, id, header, prices);
    case DeletingDraft(id) => DeleteDraftExtends(b, id);
  }

  lemma MovedTaskExtends(tasks: seq<L.Task>, i: nat, task: L.Task)
    requires i < |tasks| && TaskExtends(tasks[i], task)
    ensures TasksExtend(tasks, tasks[i := task])
  {
  }

  lemma TaskStepExtends(b: Books, command: TaskCommand)
    ensures TaskStep(b, command).Ok? ==> Extends(b, TaskStep(b, command).value)
  {
    var r := TaskStep(b, command);
    if r.Ok? {
      match command
      case ConfirmingTask(id, payload, user) => ConfirmExtends(b.tasks, id, payload, user);
      case _ => MovedTaskExtends(b.tasks, command.id, r.value.tasks[command.id]);
    }
  }

  lemma StepExtends(b: Books, command: Command)
    ensures Extends(b, Next(b, command))
  {
    match command
    case SetDirectory(_) =>
    case ForDocuments(document) => DocumentStepExtends(b, document);
    case ForPayments(payment) => PaymentStepExtends(b, payment);
    case ForTasks(task) => TaskStepExtends(b, task);
  }

  lemma ExtendsIsTransitive(a: Books, b: Books, c: Books)
    requires Extends(a, b) && Extends(b, c)
    ensures Extends(a, c)
  {
    forall i | 0 <= i < |a.tasks| ensures TaskExtends(a.tasks[i], c.tasks[i]) {
      assert TaskExtends(a.tasks[i], b.tasks[i]) && TaskExtends(b.tasks[i], c.tasks[i]);
    }
  }

  /**
   Whatever is run, movements, revisions, task events and cash rows are only ever added to; posted
   documents and payments stay, and cancelled ones stay as they are.
   */
  lemma {:induction false} RunExtends(b: Books, commands: seq<Command>)
    ensures Extends(b, Run(b, commands))
  {
    if |commands| > 0 {
      var before := Run(b, commands[..|commands| - 1]);
      RunExtends(b, commands[..|commands| - 1]);
      StepExtends(before, commands[|commands| - 1]);
      ExtendsIsTransitive(b, before, Run(b, commands));
    }
  }

  // ------------------------------------------------------------ when a cash row's link moves

  /** The command gives this payment other allocations and is accepted. */
  ghost predicate Reallocates(b: Books, command: Command, id: int)
  {
    && command.ForPayments? && command.payment.ReplacingAllocations? && command.payment.id == id
    && Step(b, command).Ok?
  }

  /**
   A row's document changes exactly when its payment is reallocated, cancelled row or not, and then it is the
   one document the payment is left on, if it is one.
   */
  lemma LinkMovesExactly(b: Books, command: Command, i: nat)
    requires i < |b.cash|
    ensures i < |Next(b, command).cash|
    ensures var now, next := b.cash[i], Next(b, command).cash[i];
      next.document == if now.payment.Some? && Reallocates(b, command, now.payment.value)
                       then Link(command.payment.allocations) else now.document
  {
    match command
    case SetDirectory(_) =>
    case ForDocuments(document) => DocumentsKeepOff(b, document);
    case ForPayments(payment) =>
      match payment {
        case ReplacingAllocations(id, allocations) => ReplaceMovesLinks(b, id, allocations, i);
        case _ => OtherStepsKeepLinks(b, payment, i);
      }
    case ForTasks(_) =>
  }

  lemma ReplaceMovesLinks(b: Books, id: int, allocations: seq<P.Allocation>, i: nat)
    requires i < |b.cash|
    ensures ReplaceAllocations(b, id, allocations).Ok? ==>
      var after := ReplaceAllocations(b, id, allocations).value.cash;
      && |after| == |b.cash|
      && after[i].document == if b.cash[i].payment == Some(id) then Link(allocations) else b.cash[i].document
  {
  }

  lemma OtherStepsKeepLinks(b: Books, command: PaymentCommand, i: nat)
    requires i < |b.cash| && !command.ReplacingAllocations?
    ensures PaymentStep(b, command).Ok? ==>
      i < |PaymentStep(b, command).value.cash| && PaymentStep(b, command).value.cash[i].document == b.cash[i].document
  {
  }
}
