/** What every run keeps true of the money, whatever state the stock side is in. */
module Money {
  import opened Common
  import opened Books
  import S = Stock
  import D = Documents
  import P = Payments
  import C = Cash

  type DocTable = map<int, D.Document>

  // ------------------------------------------------------------ the invariants

  /** What the table constraints say of every document: no negative total, quantity or price. */
  predicate Sane(doc: D.Document)
  {
    doc.total >= 0 && PricedLines(doc.content.lines)
  }

  predicate AllSane(docs: DocTable)
  {
    forall d :: d in docs ==> Sane(docs[d])
  }

  /**
   The bounds two services keep together. The migration can leave an allocation on a document of the
   wrong type, so the types are kept apart.
   */
  ghost predicate AllocationsInOrder(docs: DocTable, payments: P.PayTable, typed: bool)
  {
    AllSane(docs) && P.Bounded(docs, payments) && (typed ==> P.Typed(docs, payments))
  }

  /** A cash row made for a payment repeats it, and is live only while the payment is posted. */
  predicate Mirrors(payments: P.PayTable, op: C.CashOp)
  {
    op.payment.Some? ==>
      op.payment.value in payments &&
      var p := payments[op.payment.value];
      && p.status != D.Draft
      && op.opType == (if p.payType.CustomerPayment? then C.CashIn else C.CashOut)
      && op.amount == p.amount && op.date == p.date && op.partner == p.partner
      && op.document == p.document
      && (op.status == C.Live ==> p.status == D.Posted)
  }

  predicate OneRowEach(cash: seq<C.CashOp>)
  {
    forall i, j :: 0 <= i < j < |cash| && cash[i].payment.Some? ==> cash[i].payment != cash[j].payment
  }

  predicate Mirrored(payments: P.PayTable, cash: seq<C.CashOp>)
  {
    OneRowEach(cash) && forall i :: 0 <= i < |cash| ==> Mirrors(payments, cash[i])
  }

  /** A payment that was ever posted has a cash row. */
  ghost predicate Booked(payments: P.PayTable, cash: seq<C.CashOp>)
  {
    forall id :: id in payments && payments[id].status != D.Draft ==> HasRow(cash, id)
  }

  predicate HasRow(cash: seq<C.CashOp>, id: int)
  {
    exists i :: 0 <= i < |cash| && cash[i].payment == Some(id)
  }

  predicate AllPositive(payments: P.PayTable)
  {
    forall id :: id in payments ==> payments[id].amount > 0
  }

  /** The ledger never dips, and it says of every payment what the payment says. */
  ghost predicate LedgerInOrder(payments: P.PayTable, cash: seq<C.CashOp>)
  {
    AllPositive(payments) && C.NeverNegative(cash) && Mirrored(payments, cash) && Booked(payments, cash)
  }

  ghost predicate MoneyInOrder(b: Books, typed: bool)
  {
    AllocationsInOrder(b.store.docs, b.payments, typed) && LedgerInOrder(b.payments, b.cash)
  }

  // ------------------------------------------------------------ documents

  lemma {:induction false} TotalNonneg(lines: seq<S.Line>)
    requires PricedLines(lines)
    ensures D.Total(lines) >= 0
  {
    if |lines| > 0 {
      TotalNonneg(lines[..|lines| - 1]);
      var line := lines[|lines| - 1];
      assert line.quantity * line.price >= 0;
    }
  }

  lemma PutDraftKeeps(docs: DocTable, payments: P.PayTable, id: int, doc: D.Document, typed: bool)
    requires AllocationsInOrder(docs, payments, typed)
    requires id in docs ==> docs[id].status == D.Draft
    requires Sane(doc)
    ensures AllocationsInOrder(docs[id := doc], payments, typed)
  {
    P.OnlyPostedArePaid(docs, payments, id);
    P.UnpaidDocumentKeeps(docs, payments, id, doc);
  }

  lemma RedraftedKeeps(b: Books, id: int, content: S.Content, typed: bool)
    requires AllocationsInOrder(b.store.docs, b.payments, typed)
    requires id in b.store.docs && b.store.docs[id].status == D.Draft && PricedLines(content.lines)
    ensures AllocationsInOrder(Redrafted(b, id, content).store.docs, b.payments, typed)
  {
    TotalNonneg(content.lines);
    var doc := b.store.docs[id].(content := content, total := D.Total(content.lines));
    PutDraftKeeps(b.store.docs, b.payments, id, doc, typed);
  }

  /** What makes an edit a redraft: the draft was there, and the new content has priced lines. */
  predicate Redrafts(b: Books, id: int, content: S.Content, after: Books)
  {
    && id in b.store.docs && b.store.docs[id].status == D.Draft
    && PricedLines(content.lines)
    && after == Redrafted(b, id, content)
  }

  lemma AddLineRedrafts(b: Books, id: int, line: S.Line)
    requires AllSane(b.store.docs) && AddLine(b, id, line).Ok?
    ensures id in b.store.docs
    ensures var now := b.store.docs[id].content;
      Redrafts(b, id, now.(lines := now.lines + [line]), AddLine(b, id, line).value)
  {
    assert [line][0] == line;
    assert Sane(b.store.docs[id]);
  }

  lemma ChangeLineRedrafts(b: Books, id: int, n: int, patch: LinePatch)
    requires AllSane(b.store.docs) && ChangeLine(b, id, n, patch).Ok?
    ensures id in b.store.docs && 0 <= n < |b.store.docs[id].content.lines|
    ensures var now := b.store.docs[id].content;
      Redrafts(b, id, now.(lines := now.lines[n := PatchedLine(now.lines[n], patch)]),
               ChangeLine(b, id, n, patch).value)
  {
    assert Sane(b.store.docs[id]);
  }

  lemma DeleteLineRedrafts(b: Books, id: int, n: int)
    requires AllSane(b.store.docs) && DeleteLine(b, id, n).Ok?
    ensures id in b.store.docs && 0 <= n < |b.store.docs[id].content.lines|
    ensures var now := b.store.docs[id].content;
      Redrafts(b, id, now.(lines := now.lines[..n] + now.lines[n + 1..]), DeleteLine(b, id, n).value)
  {
    assert Sane(b.store.docs[id]);
  }

  lemma ChangeHeaderRedrafts(b: Books, id: int, header: HeaderPatch, prices: seq<int>)
    requires AllSane(b.store.docs) && ChangeHeader(b, id, header, prices).Ok?
    ensures id in b.store.docs && |prices| == |b.store.docs[id].content.lines|
    ensures Redrafts(b, id, PatchedHeader(b.store.docs[id].content, header, prices),
                     ChangeHeader(b, id, header, prices).value)
  {
    assert Sane(b.store.docs[id]);
  }

  /** Every edit of a draft is some redraft of it with priced lines. */
  lemma EditIsRedraft(b: Books, command: DocumentCommand) returns (content: S.Content)
    requires AllSane(b.store.docs)
    requires command.AddingLine? || command.ChangingLine? || command.DeletingLine? || command.ChangingHeader?
    requires DocumentStep(b, command).Ok?
    ensures Redrafts(b, command.id, content, DocumentStep(b, command).value)
  {
    match command {
      case AddingLine(id, line) =>
        AddLineRedrafts(b, id, line);
        content := b.store.docs[id].content.(lines := b.store.docs[id].content.lines + [line]);
      case ChangingLine(id, n, patch) =>
        ChangeLineRedrafts(b, id, n, patch);
        var lines := b.store.docs[id].content.lines;
        content := b.store.docs[id].content.(lines := lines[n := PatchedLine(lines[n], patch)]);
      case DeletingLine(id, n) =>
        DeleteLineRedrafts(b, id, n);
        var lines := b.store.docs[id].content.lines;
        content := b.store.docs[id].content.(lines := lines[..n] + lines[n + 1..]);
      case ChangingHeader(id, header, prices) =>
        ChangeHeaderRedrafts(b, id, header, prices);
        content := PatchedHeader(b.store.docs[id].content, header, prices);
    }
  }

  lemma EditKeepsAllocations(b: Books, command: DocumentCommand, typed: bool)
    requires AllocationsInOrder(b.store.docs, b.payments, typed)
    requires command.AddingLine? || command.ChangingLine? || command.DeletingLine? || command.ChangingHeader?
    ensures DocumentStep(b, command).Ok? ==>
      AllocationsInOrder(DocumentStep(b, command).value.store.docs, b.payments, typed)
  {
    if DocumentStep(b, command).Ok? {
      var content := EditIsRedraft(b, command);
      RedraftedKeeps(b, command.id, content, typed);
    }
  }

  lemma {:induction false} DebtsKeepAllocations(docs: DocTable, payments: P.PayTable, date: int, rows: seq<Debt>,
                                                typed: bool)
    requires AllocationsInOrder(docs, payments, typed)
    ensures ImportDebts(docs, date, rows).Ok? ==>
      AllocationsInOrder(ImportDebts(docs, date, rows).value, payments, typed)
  {
    if |rows| > 0 && ImportDebts(docs, date, rows).Ok? {
      var before, row := ImportDebts(docs, date, rows[..|rows| - 1]), rows[|rows| - 1];
      DebtsKeepAllocations(docs, payments, date, rows[..|rows| - 1], typed);
      if row.balance != 0 {
        PutDraftKeeps(before.value, payments, row.id, OpeningDocument(date, row.partner, row.balance), typed);
      }
    }
  }

  lemma PostKeepsAllocations(b: Books, id: int, typed: bool)
    requires AllocationsInOrder(b.store.docs, b.payments, typed)
    ensures PostDocument(b, id).Ok? ==> AllocationsInOrder(PostDocument(b, id).value.store.docs, b.payments, typed)
  {
    if PostDocument(b, id).Ok? {
      D.PostWrites(b.store, id);
      PutDraftKeeps(b.store.docs, b.payments, id, PostDocument(b, id).value.store.docs[id], typed);
    }
  }

  /** What a correction makes of a document. */
  function Reposted(doc: D.Document, content: S.Content): D.Document
  {
    D.Document(content, D.Posted, doc.version + 1, D.Total(content.lines))
  }

  lemma RepostedDocs(b: Books, id: int, content: S.Content, reason: nat)
    requires RepostDocument(b, id, content, reason).Ok?
    ensures id in b.store.docs && b.store.docs[id].status == D.Posted && PricedLines(content.lines)
    ensures P.CheckRepostAllocations(b.payments, id, b.store.docs[id].content, content, D.Total(content.lines)).None?
    ensures RepostDocument(b, id, content, reason).value.store.docs
         == b.store.docs[id := Reposted(b.store.docs[id], content)]
  {
    D.RepostWrites(b.store, id, content);
  }

  lemma RepostKeepsAllocations(b: Books, id: int, content: S.Content, reason: nat, typed: bool)
    requires AllocationsInOrder(b.store.docs, b.payments, typed)
    ensures var r := RepostDocument(b, id, content, reason);
      r.Ok? ==> AllocationsInOrder(r.value.store.docs, b.payments, typed)
  {
    if RepostDocument(b, id, content, reason).Ok? {
      RepostedDocs(b, id, content, reason);
      TotalNonneg(content.lines);
      P.RepostKeepsAllocations(b.store.docs, b.payments, id, Reposted(b.store.docs[id], content));
    }
  }

  lemma CancelKeepsAllocations(b: Books, id: int, typed: bool)
    requires AllocationsInOrder(b.store.docs, b.payments, typed)
    ensures CancelDocument(b, id).Ok? ==> AllocationsInOrder(CancelDocument(b, id).value.store.docs, b.payments, typed)
  {
    if CancelDocument(b, id).Ok? {
      D.CancelWrites(b.store, id);
      assert Sane(b.store.docs[id]);
      P.UnpaidDocumentKeeps(b.store.docs, b.payments, id, b.store.docs[id].(status := D.Cancelled));
    }
  }

  lemma {:induction false} CountsKeepDocuments(store: D.Store, rows: seq<Count>)
    ensures ImportRows(store, rows).docs == store.docs
  {
    if |rows| > 0 {
      CountsKeepDocuments(store, rows[..|rows| - 1]);
    }
  }

  lemma DocumentStepKeepsAllocations(b: Books, command: DocumentCommand, typed: bool)
    requires AllocationsInOrder(b.store.docs, b.payments, typed)
    ensures DocumentStep(b, command).Ok? ==>
      AllocationsInOrder(DocumentStep(b, command).value.store.docs, b.payments, typed)
  {
    match command
    case CreatingDraft(id, content) =>
      if id !in b.store.docs {
        PutDraftKeeps(b.store.docs, b.payments, id, D.Document(content.(lines := []), D.Draft, 0, 0), typed);
      }
    case DeletingDraft(id) =>
      if id in b.store.docs && b.store.docs[id].status == D.Draft {
        P.DropDocumentKeeps(b.store.docs, b.payments, id);
      }
    case PostingDocument(id) => PostKeepsAllocations(b, id, typed);
    case RepostingDocument(id, content, reason) => RepostKeepsAllocations(b, id, content, reason, typed);
    case CancellingDocument(id) => CancelKeepsAllocations(b, id, typed);
    case ImportingStock(counts) => CountsKeepDocuments(b.store, counts);
    case ImportingBalances(date, debts) => DebtsKeepAllocations(b.store.docs, b.payments, date, debts, typed);
    case _ => EditKeepsAllocations(b, command, typed);
  }

  // ------------------------------------------------------------ payments and their bounds

  /** A draft counts nowhere, so validating against all payments is validating against the others. */
  lemma {:induction false} DraftCountsNowhere(docs: DocTable, payments: P.PayTable, id: int, payType: P.PayType,
                                              partner: Option<int>, allocations: seq<P.Allocation>)
    requires id in payments && payments[id].status == D.Draft
    ensures P.FirstBadAllocation(docs, payments, payType, partner, allocations)
         == P.FirstBadAllocation(docs, payments - {id}, payType, partner, allocations)
  {
    if |allocations| > 0 {
      DraftCountsNowhere(docs, payments, id, payType, partner, allocations[..|allocations| - 1]);
      P.AllocatedWithout(payments, id, allocations[|allocations| - 1].doc);
    }
  }

  lemma PutUnpostedPaymentKeeps(docs: DocTable, payments: P.PayTable, id: int, p: P.Payment, typed: bool)
    requires AllocationsInOrder(docs, payments, typed)
    requires p.status != D.Posted
    ensures AllocationsInOrder(docs, payments[id := p], typed)
  {
    P.PutPaymentKeeps(docs, payments, id, p);
  }

  lemma PostPaymentKeepsAllocations(b: Books, id: int, typed: bool)
    requires AllocationsInOrder(b.store.docs, b.payments, typed)
    ensures PostPayment(b, id).Ok? ==> AllocationsInOrder(b.store.docs, PostPayment(b, id).value.payments, typed)
  {
    if PostPayment(b, id).Ok? {
      var p := b.payments[id];
      DraftCountsNowhere(b.store.docs, b.payments, id, p.payType, p.partner, p.allocations);
      P.PutPaymentKeeps(b.store.docs, b.payments, id, p.(status := D.Posted, document := Link(p.allocations)));
    }
  }

  lemma ReplaceKeepsAllocations(b: Books, id: int, allocations: seq<P.Allocation>, typed: bool)
    requires AllocationsInOrder(b.store.docs, b.payments, typed)
    ensures var r := ReplaceAllocations(b, id, allocations);
      r.Ok? ==> AllocationsInOrder(b.store.docs, r.value.payments, typed)
  {
    if ReplaceAllocations(b, id, allocations).Ok? {
      var p := b.payments[id].(allocations := allocations, document := Link(allocations));
      P.PutPaymentKeeps(b.store.docs, b.payments, id, p);
    }
  }

  lemma CancelPaymentKeepsAllocations(b: Books, id: int, typed: bool)
    requires AllocationsInOrder(b.store.docs, b.payments, typed)
    ensures CancelPayment(b, id).Ok? ==> AllocationsInOrder(b.store.docs, CancelPayment(b, id).value.payments, typed)
  {
    if CancelPayment(b, id).Ok? {
      PutUnpostedPaymentKeeps(b.store.docs, b.payments, id, b.payments[id].(status := D.Cancelled), typed);
    }
  }

  lemma CreatePaymentKeepsAllocations(b: Books, id: int, form: Form, typed: bool)
    requires AllocationsInOrder(b.store.docs, b.payments, typed)
    ensures CreatePayment(b, id, form).Ok? ==>
      AllocationsInOrder(b.store.docs, CreatePayment(b, id, form).value.payments, typed)
  {
    PutUnpostedPaymentKeeps(b.store.docs, b.payments, id, Drafted(form, Inputs(form)), typed);
  }

  lemma UpdatePaymentKeepsAllocations(b: Books, id: int, patch: Patch, typed: bool)
    requires AllocationsInOrder(b.store.docs, b.payments, typed)
    ensures UpdatePayment(b, id, patch).Ok? ==>
      AllocationsInOrder(b.store.docs, UpdatePayment(b, id, patch).value.payments, typed)
  {
    if UpdatePayment(b, id, patch).Ok? {
      var form := Patched(b.payments[id], patch);
      PutUnpostedPaymentKeeps(b.store.docs, b.payments, id, Drafted(form, form.allocations), typed);
    }
  }

  lemma DeletePaymentKeepsAllocations(b: Books, id: int, typed: bool)
    requires AllocationsInOrder(b.store.docs, b.payments, typed)
    ensures DeletePayment(b, id).Ok? ==> AllocationsInOrder(b.store.docs, DeletePayment(b, id).value.payments, typed)
  {
    P.BoundedWithout(b.store.docs, b.payments, id);
  }

  /** Every write of a payment row is of a row that is not posted, or was validated against the others. */
  lemma PaymentStepKeepsAllocations(b: Books, command: PaymentCommand, typed: bool)
    requires AllocationsInOrder(b.store.docs, b.payments, typed)
    ensures PaymentStep(b, command).Ok? ==>
      AllocationsInOrder(b.store.docs, PaymentStep(b, command).value.payments, typed)
  {
    match command
    case CreatingPayment(id, form) => CreatePaymentKeepsAllocations(b, id, form, typed);
    case UpdatingPayment(id, patch) => UpdatePaymentKeepsAllocations(b, id, patch, typed);
    case DeletingPayment(id) => DeletePaymentKeepsAllocations(b, id, typed);
    case PostingPayment(id) => PostPaymentKeepsAllocations(b, id, typed);
    case ReplacingAllocations(id, allocations) => ReplaceKeepsAllocations(b, id, allocations, typed);
    case CancellingPayment(id) => CancelPaymentKeepsAllocations(b, id, typed);
    case CreatingCash(_) =>
    case CancellingCash(_) =>
  }

  // ------------------------------------------------------------ payments and the ledger

  /** No cash row speaks for a payment that is not there or still a draft. */
  lemma NoRowForDraft(payments: P.PayTable, cash: seq<C.CashOp>, id: int)
    requires Mirrored(payments, cash)
    requires id in payments ==> payments[id].status == D.Draft
    ensures forall i :: 0 <= i < |cash| ==> cash[i].payment != Some(id)
  {
    forall i | 0 <= i < |cash| ensures cash[i].payment != Some(id) {
      assert Mirrors(payments, cash[i]);
    }
  }

  lemma DraftKeepsMirror(payments: P.PayTable, cash: seq<C.CashOp>, id: int, p: P.Payment)
    requires Mirrored(payments, cash)
    requires id in payments ==> payments[id].status == D.Draft
    ensures Mirrored(payments[id := p], cash)
    ensures Mirrored(payments - {id}, cash)
  {
    NoRowForDraft(payments, cash, id);
    forall i | 0 <= i < |cash| ensures Mirrors(payments[id := p], cash[i]) && Mirrors(payments - {id}, cash[i]) {
      assert Mirrors(payments, cash[i]);
    }
  }

  lemma PostedRowMirrors(payments: P.PayTable, cash: seq<C.CashOp>, id: int, p: P.Payment, op: C.CashOp)
    requires Mirrored(payments, cash)
    requires id in payments && payments[id].status == D.Draft
    requires p.status == D.Posted && op.payment == Some(id)
    requires Mirrors(payments[id := p], op)
    ensures Mirrored(payments[id := p], cash + [op])
  {
    NoRowForDraft(payments, cash, id);
    DraftKeepsMirror(payments, cash, id, p);
  }

  lemma PostPaymentKeepsLedger(b: Books, id: int)
    requires LedgerInOrder(b.payments, b.cash)
    ensures PostPayment(b, id).Ok? ==>
      LedgerInOrder(PostPayment(b, id).value.payments, PostPayment(b, id).value.cash)
  {
    var r := PostPayment(b, id);
    if r.Ok? {
      PostedRowMirrors(b.payments, b.cash, id, r.value.payments[id], r.value.cash[|b.cash|]);
    }
  }

  lemma ReplaceKeepsMirror(payments: P.PayTable, cash: seq<C.CashOp>, id: int, allocations: seq<P.Allocation>)
    requires Mirrored(payments, cash) && id in payments
    ensures var p := payments[id].(allocations := allocations, document := Link(allocations));
      Mirrored(payments[id := p], Relinked(cash, id, Link(allocations)))
  {
    var p := payments[id].(allocations := allocations, document := Link(allocations));
    var after := Relinked(cash, id, Link(allocations));
    forall i | 0 <= i < |after| ensures Mirrors(payments[id := p], after[i]) {
      assert Mirrors(payments, cash[i]);
    }
  }

  lemma ReplaceKeepsLedger(b: Books, id: int, allocations: seq<P.Allocation>)
    requires LedgerInOrder(b.payments, b.cash)
    ensures var r := ReplaceAllocations(b, id, allocations);
      r.Ok? ==> LedgerInOrder(r.value.payments, r.value.cash)
  {
    var r := ReplaceAllocations(b, id, allocations);
    if r.Ok? {
      ReplaceKeepsMirror(b.payments, b.cash, id, allocations);
      assert C.Entries(r.value.cash) == C.Entries(b.cash);
    }
  }

  lemma CancelKeepsMirror(payments: P.PayTable, cash: seq<C.CashOp>, id: int)
    requires Mirrored(payments, cash)
    requires id in payments && payments[id].status == D.Posted
    ensures Mirrored(payments[id := payments[id].(status := D.Cancelled)], C.Without(cash, C.LiveRowsOf(cash, id)))
  {
    var after := C.Without(cash, C.LiveRowsOf(cash, id));
    forall i | 0 <= i < |after| ensures Mirrors(payments[id := payments[id].(status := D.Cancelled)], after[i]) {
      assert Mirrors(payments, cash[i]);
      if cash[i].payment == Some(id) && cash[i].status == C.Live {
        assert C.Id(i) in C.LiveRowsOf(cash, id);
      }
    }
  }

  lemma CancelPaymentKeepsLedger(b: Books, id: int)
    requires LedgerInOrder(b.payments, b.cash)
    ensures CancelPayment(b, id).Ok? ==>
      LedgerInOrder(CancelPayment(b, id).value.payments, CancelPayment(b, id).value.cash)
  {
    if CancelPayment(b, id).Ok? {
      CancelKeepsMirror(b.payments, b.cash, id);
    }
  }

  lemma ManualRowsMirror(payments: P.PayTable, cash: seq<C.CashOp>, op: C.CashOp, excluded: set<int>)
    requires Mirrored(payments, cash) && op.payment.None?
    ensures Mirrored(payments, cash + [op]) && Mirrored(payments, C.Without(cash, excluded))
  {
    forall i | 0 <= i < |cash|
      ensures Mirrors(payments, (cash + [op])[i]) && Mirrors(payments, C.Without(cash, excluded)[i])
    {
      assert Mirrors(payments, cash[i]);
    }
  }

  lemma RowsStay(payments: P.PayTable, cash: seq<C.CashOp>, op: C.CashOp, excluded: set<int>)
    requires Booked(payments, cash)
    ensures Booked(payments, cash + [op]) && Booked(payments, C.Without(cash, excluded))
  {
    forall id | id in payments && payments[id].status != D.Draft
      ensures HasRow(cash + [op], id) && HasRow(C.Without(cash, excluded), id)
    {
      assert HasRow(cash, id);
      var i :| 0 <= i < |cash| && cash[i].payment == Some(id);
      assert (cash + [op])[i].payment == Some(id) && C.Without(cash, excluded)[i].payment == Some(id);
    }
  }

  lemma CreateCashKeepsLedger(b: Books, request: C.Request)
    requires LedgerInOrder(b.payments, b.cash)
    ensures CreateCash(b, request).Ok? ==> LedgerInOrder(b.payments, CreateCash(b, request).value.cash)
  {
    var r := CreateCash(b, request);
    if r.Ok? {
      ManualRowsMirror(b.payments, b.cash, r.value.cash[|b.cash|], {});
      RowsStay(b.payments, b.cash, r.value.cash[|b.cash|], {});
    }
  }

  lemma CancelCashKeepsLedger(b: Books, id: int)
    requires LedgerInOrder(b.payments, b.cash)
    ensures CancelCash(b, id).Ok? ==> LedgerInOrder(b.payments, CancelCash(b, id).value.cash)
  {
    var r := CancelCash(b, id);
    if r.Ok? {
      forall i | 0 <= i < |r.value.cash| ensures Mirrors(b.payments, r.value.cash[i]) {
        assert Mirrors(b.payments, b.cash[i]);
      }
      RowsStay(b.payments, b.cash, b.cash[0], {id});
    }
  }

  lemma PaymentStepKeepsLedger(b: Books, command: PaymentCommand)
    requires LedgerInOrder(b.payments, b.cash)
    ensures PaymentStep(b, command).Ok? ==>
      LedgerInOrder(PaymentStep(b, command).value.payments, PaymentStep(b, command).value.cash)
  {
    var r := PaymentStep(b, command);
    if r.Ok? {
      match command
      case CreatingPayment(id, form) => DraftKeepsMirror(b.payments, b.cash, id, Drafted(form, Inputs(form)));
      case UpdatingPayment(id, patch) => DraftKeepsMirror(b.payments, b.cash, id, r.value.payments[id]);
      case DeletingPayment(id) => DraftKeepsMirror(b.payments, b.cash, id, b.payments[id]);
      case PostingPayment(id) => PostPaymentKeepsLedger(b, id);
      case ReplacingAllocations(id, allocations) => ReplaceKeepsLedger(b, id, allocations);
      case CancellingPayment(id) => CancelPaymentKeepsLedger(b, id);
      case CreatingCash(request) => CreateCashKeepsLedger(b, request);
      case CancellingCash(id) => CancelCashKeepsLedger(b, id);
    }
  }

  // ------------------------------------------------------------ every run

  /** The allocation bounds are kept by every step on their own. */
  lemma StepKeepsAllocations(b: Books, command: Command, typed: bool)
    requires AllocationsInOrder(b.store.docs, b.payments, typed)
    ensures AllocationsInOrder(Next(b, command).store.docs, Next(b, command).payments, typed)
  {
    match command
    case SetDirectory(_) =>
    case ForDocuments(document) =>
      DocumentsKeepOff(b, document);
      DocumentStepKeepsAllocations(b, document, typed);
    case ForPayments(payment) =>
      PaymentsKeepOff(b, payment);
      PaymentStepKeepsAllocations(b, payment, typed);
    case ForTasks(_) =>
  }

  lemma StepKeepsLedger(b: Books, command: Command)
    requires LedgerInOrder(b.payments, b.cash)
    ensures LedgerInOrder(Next(b, command).payments, Next(b, command).cash)
  {
    match command
    case SetDirectory(_) =>
    case ForDocuments(document) => DocumentsKeepOff(b, document);
    case ForPayments(payment) => PaymentStepKeepsLedger(b, payment);
    case ForTasks(_) =>
  }

  /** Over every run, from any state of the stock side, no payment is over-spent and no document over-paid. */
  lemma {:induction false} RunKeepsAllocations(b: Books, commands: seq<Command>, typed: bool)
    requires AllocationsInOrder(b.store.docs, b.payments, typed)
    ensures AllocationsInOrder(Run(b, commands).store.docs, Run(b, commands).payments, typed)
  {
    if |commands| > 0 {
      RunKeepsAllocations(b, commands[..|commands| - 1], typed);
      StepKeepsAllocations(Run(b, commands[..|commands| - 1]), commands[|commands| - 1], typed);
    }
  }

  /** Over every run the ledger never dips and mirrors the payments. */
  lemma {:induction false} RunKeepsLedger(b: Books, commands: seq<Command>)
    requires LedgerInOrder(b.payments, b.cash)
    ensures LedgerInOrder(Run(b, commands).payments, Run(b, commands).cash)
  {
    if |commands| > 0 {
      RunKeepsLedger(b, commands[..|commands| - 1]);
      StepKeepsLedger(Run(b, commands[..|commands| - 1]), commands[|commands| - 1]);
    }
  }
}
