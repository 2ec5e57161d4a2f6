/** The whole database as one value, and every service operation as a step on it. */
module Books {
  import opened Common
  import S = Stock
  import D = Documents
  import L = Logistics
  import P = Payments
  import C = Cash

  /** A posting of a document: which document, which version. */
  datatype Posting = Posting(doc: int, version: int)

  /** The snapshot kept of a posting. */
  datatype Revision = Revision(content: S.Content, status: D.Status, total: int)

  datatype Books = Books(
    dir: D.Directory,
    store: D.Store,
    revisions: map<Posting, Revision>,
    tasks: seq<L.Task>,
    payments: P.PayTable,
    cash: seq<C.CashOp>)

  function Empty(dir: D.Directory): Books
  {
    Books(dir, D.Store(map[], map[], []), map[], [], map[], [])
  }

  // ------------------------------------------------------------ documents

  function Snapshot(doc: D.Document): Revision
  {
    Revision(doc.content, doc.status, doc.total)
  }

  /** A revision is written once; a second write of the same version changes nothing. */
  function StoreRevision(revisions: map<Posting, Revision>, id: int, doc: D.Document): map<Posting, Revision>
  {
    if Posting(id, doc.version) in revisions then revisions
    else revisions[Posting(id, doc.version) := Snapshot(doc)]
  }

  predicate PricedLines(lines: seq<S.Line>)
  {
    forall i :: 0 <= i < |lines| ==> lines[i].quantity >= 0 && lines[i].price >= 0
  }

  function CreateDraft(b: Books, id: int, content: S.Content): Result<Books>
  {
    var fault := D.First(D.CheckPartner(b.dir, content.docType, content.partner), D.CheckReferences(b.dir, content));
    if id in b.store.docs then Err(Conflict)
    else if |content.lines| > 0 then Err(Unprocessable)
    else if fault.Some? then Err(fault.value)
    else Ok(b.(store := b.store.(docs := b.store.docs[id := D.Document(content, D.Draft, 0, 0)])))
  }

  /** A draft with other content; its total is summed again. */
  function Redrafted(b: Books, id: int, content: S.Content): Books
    requires id in b.store.docs
  {
    b.(store := b.store.(docs := b.store.docs[id :=
      b.store.docs[id].(content := content, total := D.Total(content.lines))]))
  }

  function CheckDraftEdit(b: Books, id: int): Option<Fault>
  {
    if id !in b.store.docs then Some(NotFound)
    else if b.store.docs[id].status != D.Draft then Some(Conflict)
    else None
  }

  /** The price is the base price the currency conversion gives. */
  function AddLine(b: Books, id: int, line: S.Line): Result<Books>
  {
    if !PricedLines([line]) then Err(Unprocessable)
    else if CheckDraftEdit(b, id).Some? then Err(CheckDraftEdit(b, id).value)
    else
      var content := b.store.docs[id].content;
      var fault := D.CheckLine(b.dir, content.docType, line);
      if fault.Some? then Err(fault.value)
      else Ok(Redrafted(b, id, content.(lines := content.lines + [line])))
  }

  /** A changed line: what is None stays; the price is what the currency conversion gives. */
  datatype LinePatch = LinePatch(product: Option<int>, quantity: Option<int>, price: int)

  function PatchedLine(line: S.Line, patch: LinePatch): S.Line
  {
    S.Line(Or(patch.product, line.product), Or(patch.quantity, line.quantity), patch.price)
  }

  function ChangeLine(b: Books, id: int, n: int, patch: LinePatch): Result<Books>
  {
    if patch.price < 0 || Or(patch.quantity, 0) < 0 then Err(Unprocessable)
    else if CheckDraftEdit(b, id).Some? then Err(CheckDraftEdit(b, id).value)
    else
      var content := b.store.docs[id].content;
      if !(0 <= n < |content.lines|) then Err(NotFound) else
        var line := PatchedLine(content.lines[n], patch);
        var fault := D.CheckLine(b.dir, content.docType, line);
        if fault.Some? then Err(fault.value)
        else Ok(Redrafted(b, id, content.(lines := content.lines[n := line])))
  }

  function DeleteLine(b: Books, id: int, n: int): Result<Books>
  {
    if CheckDraftEdit(b, id).Some? then Err(CheckDraftEdit(b, id).value)
    else
      var content := b.store.docs[id].content;
      if !(0 <= n < |content.lines|) then Err(NotFound)
      else Ok(Redrafted(b, id, content.(lines := content.lines[..n] + content.lines[n + 1..])))
  }

  /** A changed header: what is None stays, and the partner and the warehouses can be cleared. */
  datatype HeaderPatch = HeaderPatch(
    docType: Option<S.DocType>,
    date: Option<int>,
    partner: Option<Option<int>>,
    warehouse: Option<Option<int>>,
    destination: Option<Option<int>>)

  /** The lines at the prices the currency conversion gives under the new header. */
  function Repriced(lines: seq<S.Line>, prices: seq<int>): (r: seq<S.Line>)
    requires |prices| == |lines|
    ensures |r| == |lines|
    ensures forall i :: 0 <= i < |lines| ==> r[i] == lines[i].(price := prices[i])
  {
    seq(|lines|, i requires 0 <= i < |lines| => lines[i].(price := prices[i]))
  }

  function PatchedHeader(content: S.Content, patch: HeaderPatch, prices: seq<int>): S.Content
    requires |prices| == |content.lines|
  {
    S.Content(Or(patch.docType, content.docType), Or(patch.date, content.date), Or(patch.partner, content.partner),
              Or(patch.warehouse, content.warehouse), Or(patch.destination, content.destination),
              Repriced(content.lines, prices))
  }

  /** The conversion gives each line a price that is not negative. */
  predicate PricesFor(lines: seq<S.Line>, prices: seq<int>)
  {
    |prices| == |lines| && forall i :: 0 <= i < |prices| ==> prices[i] >= 0
  }

  function ChangeHeader(b: Books, id: int, patch: HeaderPatch, prices: seq<int>): Result<Books>
  {
    if CheckDraftEdit(b, id).Some? then Err(CheckDraftEdit(b, id).value)
    else if !PricesFor(b.store.docs[id].content.lines, prices) then Err(Unprocessable)
    else
      var content := PatchedHeader(b.store.docs[id].content, patch, prices);
      var fault := D.First(D.CheckPartner(b.dir, content.docType, content.partner),
                   D.First(D.CheckReferences(b.dir, content),
                           D.CheckLines(b.dir, content.docType, content.lines)));
      if fault.Some? then Err(fault.value) else Ok(Redrafted(b, id, content))
  }

  function DeleteDraft(b: Books, id: int): Result<Books>
  {
    if id !in b.store.docs then Err(NotFound)
    else if b.store.docs[id].status != D.Draft then Err(Conflict)
    else Ok(b.(store := b.store.(docs := b.store.docs - {id})))
  }

  /** The guarded part of a posting. */
  function CheckedPost(b: Books, id: int): (r: Result<D.Store>)
    requires id in b.store.docs
    ensures r.Ok? ==> id in r.value.docs
  {
    var fault := D.CheckBeforePost(b.dir, b.store.docs[id].content);
    if fault.Some? then Err(fault.value) else D.Post(b.store, id)
  }

  function PostDocument(b: Books, id: int): Result<Books>
  {
    if id !in b.store.docs then Err(NotFound)
    else if b.store.docs[id].status != D.Draft then Err(Conflict)
    else
      var store :- CheckedPost(b, id);
      Ok(b.(store := store,
            revisions := StoreRevision(b.revisions, id, store.docs[id]),
            tasks := L.CreateTasks(b.tasks, id, store.docs[id])))
  }

  ghost function RepostDocument(b: Books, id: int, content: S.Content, reason: nat): Result<Books>
  {
    if |content.lines| == 0 || !PricedLines(content.lines) then Err(Unprocessable)
    else if id !in b.store.docs then Err(NotFound)
    else if b.store.docs[id].status != D.Posted then Err(Conflict)
    else if reason < 3 then Err(Unprocessable)
    else Corrected(b, id, content)
  }

  /** The guarded part of a correction: everything in it is rolled back together. */
  ghost function Corrected(b: Books, id: int, content: S.Content): Result<Books>
    requires |content.lines| > 0 && id in b.store.docs
  {
    var doc := b.store.docs[id];
    var fault := D.CheckCandidate(b.dir, content);
    var paid := P.CheckRepostAllocations(b.payments, id, doc.content, content, D.Total(content.lines));
    if fault.Some? then Err(fault.value)
    else if paid.Some? then Err(paid.value)
    else
      var store :- D.Repost(b.store, id, content);
      Ok(b.(store := store,
            revisions := StoreRevision(StoreRevision(b.revisions, id, doc), id, store.docs[id]),
            tasks := L.CreateTasks(L.CancelActive(b.tasks, id, doc.version), id, store.docs[id])))
  }

  function CancelDocument(b: Books, id: int): Result<Books>
  {
    if id !in b.store.docs then Err(NotFound)
    else if b.store.docs[id].status != D.Posted then Err(Conflict)
    else if P.HasActive(b.payments, id) then Err(Conflict)
    else
      var fault := D.CheckWarehouses(b.dir, b.store.docs[id].content);
      if fault.Some? then Err(fault.value) else
        var store :- D.Cancel(b.store, id);
        Ok(b.(store := store, tasks := L.CancelActive(b.tasks, id, b.store.docs[id].version)))
  }

  // ------------------------------------------------------------ imports

  /** One opening-stock row: the counted quantity of a balance. */
  datatype Count = Count(key: S.Key, quantity: int)

  /** A row sets its balance and logs the difference. */
  function ImportRow(store: D.Store, row: Count): D.Store
  {
    var change := S.Change(row.key, row.quantity - S.Balance(store.balances, row.key));
    D.Store(store.docs, store.balances[row.key := row.quantity], store.log + S.Stamped(None, [change]))
  }

  /** A repeated key is counted again. */
  function ImportRows(store: D.Store, rows: seq<Count>): D.Store
  {
    if |rows| == 0 then store else ImportRow(ImportRows(store, rows[..|rows| - 1]), rows[|rows| - 1])
  }

  predicate CountedRows(dir: D.Directory, rows: seq<Count>)
  {
    forall i :: 0 <= i < |rows| ==>
      rows[i].key.product in dir.products && rows[i].key.warehouse in dir.warehouses && rows[i].quantity >= 0
  }

  function ImportOpeningStock(b: Books, rows: seq<Count>): Result<Books>
  {
    if CountedRows(b.dir, rows) then Ok(b.(store := ImportRows(b.store, rows))) else Err(Unprocessable)
  }

  /** An opening debt: a posted document at version zero, without lines or movements. */
  function OpeningDocument(date: int, partner: int, balance: int): D.Document
  {
    D.Document(
      S.Content(if balance > 0 then S.Outgoing else S.Incoming, date, Some(partner), None, None, []),
      D.Posted, 0, if balance > 0 then balance else -balance)
  }

  /** One opening-debt row; the id is the one its document gets. */
  datatype Debt = Debt(id: int, partner: int, balance: int)

  /** The rows one after another in one commit; a zero balance is skipped. */
  function ImportDebts(docs: map<int, D.Document>, date: int, rows: seq<Debt>): Result<map<int, D.Document>>
  {
    if |rows| == 0 then Ok(docs) else
      var before :- ImportDebts(docs, date, rows[..|rows| - 1]);
      var row := rows[|rows| - 1];
      if row.balance == 0 then Ok(before)
      else if row.id in before then Err(Conflict)
      else Ok(before[row.id := OpeningDocument(date, row.partner, row.balance)])
  }

  predicate KnownPartners(dir: D.Directory, rows: seq<Debt>)
  {
    forall i :: 0 <= i < |rows| ==> rows[i].partner in dir.partners
  }

  function ImportOpeningBalances(b: Books, date: int, rows: seq<Debt>): Result<Books>
  {
    if !KnownPartners(b.dir, rows) then Err(Unprocessable) else
      var docs :- ImportDebts(b.store.docs, date, rows);
      Ok(b.(store := b.store.(docs := docs)))
  }

  // ------------------------------------------------------------ payments

  /** A payment form; a bare document link stands for one allocation of the whole amount. */
  datatype Form = Form(
    partner: Option<int>,
    date: int,
    payType: P.PayType,
    cash: bool,
    amount: int,
    allocations: seq<P.Allocation>,
    document: Option<int>)

  /** A partial edit; what is None stays as it is. */
  datatype Patch = Patch(
    partner: Option<Option<int>>,
    date: Option<int>,
    payType: Option<P.PayType>,
    cash: Option<bool>,
    amount: Option<int>,
    allocations: Option<seq<P.Allocation>>,
    document: Option<Option<int>>)

  function Or<T>(value: Option<T>, otherwise: T): T
  {
    if value.Some? then value.value else otherwise
  }

  function WholeTo(document: Option<int>, amount: int): seq<P.Allocation>
  {
    if document.Some? then [P.Allocation(document.value, amount)] else []
  }

  function Inputs(form: Form): seq<P.Allocation>
  {
    if |form.allocations| == 0 then WholeTo(form.document, form.amount) else form.allocations
  }

  /** The single document a payment is linked to, if its allocations name just one. */
  function Link(allocations: seq<P.Allocation>): Option<int>
  {
    if |allocations| == 1 then Some(allocations[0].doc) else None
  }

  function CheckPayer(dir: D.Directory, payType: P.PayType, cash: bool, partner: Option<int>): Option<Fault>
  {
    if partner.None? || payType.Refund? || !cash then Some(Unprocessable)
    else if partner.value !in dir.partners then Some(NotFound)
    else if payType.CustomerPayment? && dir.partners[partner.value] == D.Supplier then Some(Conflict)
    else if payType.SupplierPayment? && dir.partners[partner.value] == D.Customer then Some(Conflict)
    else None
  }

  function Drafted(form: Form, inputs: seq<P.Allocation>): P.Payment
  {
    P.Payment(form.partner, form.date, form.payType, form.cash, D.Draft, form.amount, inputs, Link(inputs))
  }

  ghost function CheckDraft(b: Books, form: Form, inputs: seq<P.Allocation>): Option<Fault>
  {
    D.First(if form.amount <= 0 then Some(Unprocessable) else None,
    D.First(CheckPayer(b.dir, form.payType, form.cash, form.partner),
            P.CheckAllocations(b.store.docs, b.payments, form.payType, form.partner, form.amount, inputs)))
  }

  ghost function CreatePayment(b: Books, id: int, form: Form): Result<Books>
  {
    var fault := CheckDraft(b, form, Inputs(form));
    if id in b.payments then Err(Conflict)
    else if fault.Some? then Err(fault.value)
    else Ok(b.(payments := b.payments[id := Drafted(form, Inputs(form))]))
  }

  /** The form a patch makes of a draft. */
  function Patched(p: P.Payment, patch: Patch): Form
  {
    var amount := Or(patch.amount, p.amount);
    Form(Or(patch.partner, p.partner), Or(patch.date, p.date), Or(patch.payType, p.payType), Or(patch.cash, p.cash),
         amount,
         if patch.allocations.Some? then patch.allocations.value
         else if patch.document.Some? then WholeTo(patch.document.value, amount)
         else p.allocations,
         None)
  }

  ghost function UpdatePayment(b: Books, id: int, patch: Patch): Result<Books>
  {
    if id !in b.payments then Err(NotFound)
    else if b.payments[id].status != D.Draft then Err(Conflict)
    else
      var form := Patched(b.payments[id], patch);
      var fault := CheckDraft(b, form, form.allocations);
      if fault.Some? then Err(fault.value)
      else Ok(b.(payments := b.payments[id := Drafted(form, form.allocations)]))
  }

  function DeletePayment(b: Books, id: int): Result<Books>
  {
    if id !in b.payments then Err(NotFound)
    else if b.payments[id].status != D.Draft then Err(Conflict)
    else Ok(b.(payments := b.payments - {id}))
  }

  /** The cash row a payment asks for when it is posted. */
  function CashRequest(id: int, p: P.Payment): C.Request
  {
    C.Request(p.date, if p.payType.CustomerPayment? then C.CashIn else C.CashOut, p.amount, p.partner,
              Link(p.allocations), Some(id), true)
  }

  ghost function PostPayment(b: Books, id: int): Result<Books>
  {
    if id !in b.payments then Err(NotFound)
    else if b.payments[id].status != D.Draft then Err(Conflict)
    else
      var p := b.payments[id];
      var fault := D.First(CheckPayer(b.dir, p.payType, p.cash, p.partner),
                           P.CheckAllocations(b.store.docs, b.payments, p.payType, p.partner, p.amount, p.allocations));
      if fault.Some? then Err(fault.value) else
        var cash :- C.Create(b.cash, CashRequest(id, p));
        Ok(b.(payments := b.payments[id := p.(status := D.Posted, document := Link(p.allocations))], cash := cash))
  }

  /** A payment's cash rows follow its document link. */
  function Relinked(ops: seq<C.CashOp>, payment: int, link: Option<int>): (r: seq<C.CashOp>)
    ensures |r| == |ops|
  {
    seq(|ops|, i requires 0 <= i < |ops| =>
      if ops[i].payment == Some(payment) then ops[i].(document := link) else ops[i])
  }

  ghost function ReplaceAllocations(b: Books, id: int, allocations: seq<P.Allocation>): Result<Books>
  {
    if id !in b.payments then Err(NotFound)
    else if b.payments[id].status != D.Posted then Err(Conflict)
    else if b.payments[id].partner.None? then Err(Unprocessable)
    else
      var p := b.payments[id];
      var fault := P.CheckAllocations(b.store.docs, b.payments - {id}, p.payType, p.partner, p.amount, allocations);
      if fault.Some? then Err(fault.value)
      else Ok(b.(payments := b.payments[id := p.(allocations := allocations, document := Link(allocations))],
                 cash := Relinked(b.cash, id, Link(allocations))))
  }

  ghost function CancelPayment(b: Books, id: int): Result<Books>
  {
    if id !in b.payments then Err(NotFound)
    else if b.payments[id].status != D.Posted then Err(Conflict)
    else
      var cash :- C.CancelPayment(b.cash, id);
      Ok(b.(payments := b.payments[id := b.payments[id].(status := D.Cancelled)], cash := cash))
  }

  // ------------------------------------------------------------ cash

  /** A manual operation may name a partner and a document, never a payment. */
  ghost function CreateCash(b: Books, request: C.Request): Result<Books>
  {
    if request.payment.Some? then Err(Unprocessable)
    else if request.partner.Some? && request.partner.value !in b.dir.partners then Err(NotFound)
    else if request.document.Some? && request.document.value !in b.store.docs then Err(NotFound)
    else
      var cash :- C.Create(b.cash, request);
      Ok(b.(cash := cash))
  }

  ghost function CancelCash(b: Books, id: int): Result<Books>
  {
    var cash :- C.Cancel(b.cash, id);
    Ok(b.(cash := cash))
  }

  // ------------------------------------------------------------ tasks

  function StartTask(b: Books, i: int, user: L.User): Result<Books>
  {
    var tasks :- L.Start(b.tasks, i, user);
    Ok(b.(tasks := tasks))
  }

  function ConfirmTask(b: Books, i: int, payload: seq<L.Confirmation>, user: L.User): Result<Books>
  {
    var tasks :- L.Confirm(b.tasks, i, payload, user);
    Ok(b.(tasks := tasks))
  }

  function ReturnTask(b: Books, i: int, user: L.User): Result<Books>
  {
    var tasks :- L.Return(b.tasks, i, user);
    Ok(b.(tasks := tasks))
  }

  // ------------------------------------------------------------ runs

  datatype DocumentCommand =
    | CreatingDraft(id: int, content: S.Content)
    | AddingLine(id: int, line: S.Line)
    | ChangingLine(id: int, n: int, patch: LinePatch)
    | DeletingLine(id: int, n: int)
    | ChangingHeader(id: int, header: HeaderPatch, prices: seq<int>)
    | DeletingDraft(id: int)
    | PostingDocument(id: int)
    | RepostingDocument(id: int, content: S.Content, reason: nat)
    | CancellingDocument(id: int)
    | ImportingStock(counts: seq<Count>)
    | ImportingBalances(date: int, debts: seq<Debt>)

  datatype PaymentCommand =
    | CreatingPayment(id: int, form: Form)
    | UpdatingPayment(id: int, patch: Patch)
    | DeletingPayment(id: int)
    | PostingPayment(id: int)
    | ReplacingAllocations(id: int, allocations: seq<P.Allocation>)
    | CancellingPayment(id: int)
    | CreatingCash(request: C.Request)
    | CancellingCash(id: int)

  datatype TaskCommand =
    | StartingTask(id: int, user: L.User)
    | ConfirmingTask(id: int, payload: seq<L.Confirmation>, user: L.User)
    | ReturningTask(id: int, user: L.User)

  datatype Command =
    | SetDirectory(dir: D.Directory)
    | ForDocuments(document: DocumentCommand)
    | ForPayments(payment: PaymentCommand)
    | ForTasks(task: TaskCommand)

  ghost function DocumentStep(b: Books, command: DocumentCommand): Result<Books>
  {
    match command
    case CreatingDraft(id, content) => CreateDraft(b, id, content)
    case AddingLine(id, line) => AddLine(b, id, line)
    case ChangingLine(id, n, patch) => ChangeLine(b, id, n, patch)
    case DeletingLine(id, n) => DeleteLine(b, id, n)
    case ChangingHeader(id, header, prices) => ChangeHeader(b, id, header, prices)
    case DeletingDraft(id) => DeleteDraft(b, id)
    case PostingDocument(id) => PostDocument(b, id)
    case RepostingDocument(id, content, reason) => RepostDocument(b, id, content, reason)
    case CancellingDocument(id) => CancelDocument(b, id)
    case ImportingStock(counts) => ImportOpeningStock(b, counts)
    case ImportingBalances(date, debts) => ImportOpeningBalances(b, date, debts)
  }

  ghost function PaymentStep(b: Books, command: PaymentCommand): Result<Books>
  {
    match command
    case CreatingPayment(id, form) => CreatePayment(b, id, form)
    case UpdatingPayment(id, patch) => UpdatePayment(b, id, patch)
    case DeletingPayment(id) => DeletePayment(b, id)
    case PostingPayment(id) => PostPayment(b, id)
    case ReplacingAllocations(id, allocations) => ReplaceAllocations(b, id, allocations)
    case CancellingPayment(id) => CancelPayment(b, id)
    case CreatingCash(request) => CreateCash(b, request)
    case CancellingCash(id) => CancelCash(b, id)
  }

  function TaskStep(b: Books, command: TaskCommand): Result<Books>
  {
    match command
    case StartingTask(id, user) => StartTask(b, id, user)
    case ConfirmingTask(id, payload, user) => ConfirmTask(b, id, payload, user)
    case ReturningTask(id, user) => ReturnTask(b, id, user)
  }

  ghost function Step(b: Books, command: Command): Result<Books>
  {
    match command
    case SetDirectory(dir) => Ok(b.(dir := dir))
    case ForDocuments(document) => DocumentStep(b, document)
    case ForPayments(payment) => PaymentStep(b, payment)
    case ForTasks(task) => TaskStep(b, task)
  }

  /** A refused command leaves the books as they were. */
  ghost function Next(b: Books, command: Command): Books
  {
    var r := Step(b, command);
    if r.Ok? then r.value else b
  }

  ghost function Run(b: Books, commands: seq<Command>): Books
  {
    if |commands| == 0 then b else Next(Run(b, commands[..|commands| - 1]), commands[|commands| - 1])
  }

  predicate SameMoney(before: Books, after: Books)
  {
    after.payments == before.payments && after.cash == before.cash
  }

  lemma PostKeepsOff(b: Books, id: int)
    ensures PostDocument(b, id).Ok? ==> SameMoney(b, PostDocument(b, id).value)
  {
  }

  lemma RepostKeepsOff(b: Books, id: int, content: S.Content, reason: nat)
    ensures RepostDocument(b, id, content, reason).Ok? ==> SameMoney(b, RepostDocument(b, id, content, reason).value)
  {
  }

  lemma CancelKeepsOff(b: Books, id: int)
    ensures CancelDocument(b, id).Ok? ==> SameMoney(b, CancelDocument(b, id).value)
  {
  }

  /** Documents, payments and tasks keep to their own tables. */
  lemma DocumentsKeepOff(b: Books, command: DocumentCommand)
    ensures DocumentStep(b, command).Ok? ==>
      var after := DocumentStep(b, command).value;
      after.payments == b.payments && after.cash == b.cash
  {
    match command
    case PostingDocument(id) => PostKeepsOff(b, id);
    case RepostingDocument(id, content, reason) => RepostKeepsOff(b, id, content, reason);
    case CancellingDocument(id) => CancelKeepsOff(b, id);
    case ImportingStock(_) =>
    case ImportingBalances(_, _) =>
    case CreatingDraft(_, _) =>
    case AddingLine(_, _) =>
    case ChangingLine(_, _, _) =>
    case DeletingLine(_, _) =>
    case ChangingHeader(_, _, _) =>
    case DeletingDraft(_) =>
  }

  lemma PaymentsKeepOff(b: Books, command: PaymentCommand)
    ensures PaymentStep(b, command).Ok? ==>
      var after := PaymentStep(b, command).value;
      after.store == b.store && after.revisions == b.revisions && after.tasks == b.tasks
  {
  }
}
