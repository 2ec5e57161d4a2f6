/** What every run of the services keeps true of the whole database. */
module Engine {
  import opened Common
  import opened Books
  import S = Stock
  import D = Documents
  import V = Versions
  import L = Logistics
  import C = Cash
  import opened Money

  // ------------------------------------------------------------ the invariant

  /** Revisions are exactly one to the posting version, and the last one is the document as it stands. */
  ghost predicate Recorded(docs: DocTable, revisions: map<Posting, Revision>)
  {
    && (forall p: Posting :: p in revisions <==> p.doc in docs && 1 <= p.version <= docs[p.doc].version)
    && (forall d :: d in docs && docs[d].version >= 1 ==> RecordsNow(revisions, d, docs[d]))
  }

  predicate RecordsNow(revisions: map<Posting, Revision>, id: int, doc: D.Document)
  {
    var p := Posting(id, doc.version);
    p in revisions && revisions[p] == Revision(doc.content, D.Posted, doc.total)
  }

  /** A document is worth its lines, except an opening debt, which has none. */
  predicate Worth(doc: D.Document)
  {
    && Sane(doc)
    && (if doc.status == D.Draft || doc.version >= 1
        then doc.total == D.Total(doc.content.lines)
        else doc.status == D.Posted && doc.content.lines == [] && doc.content.warehouse.None?)
  }

  predicate AllWorth(docs: DocTable)
  {
    forall d :: d in docs ==> Worth(docs[d])
  }

  ghost predicate DocumentsInOrder(b: Books)
  {
    && D.CacheExact(b.store)
    && V.Versioned(b.store)
    && Recorded(b.store.docs, b.revisions)
    && AllWorth(b.store.docs)
    && L.TasksInOrder(b.store.docs, b.tasks)
    && L.AllCovered(b.store.docs, b.tasks)
  }

  ghost predicate InOrder(b: Books, typed: bool)
  {
    DocumentsInOrder(b) && MoneyInOrder(b, typed)
  }

  // ------------------------------------------------------------ drafts

  /** Writing or removing an unposted document touches nothing that money or stock depends on. */
  lemma UnpostedVersions(s: D.Store, id: int, doc: D.Document)
    requires V.Versioned(s)
    requires id in s.docs ==> s.docs[id].version == 0
    requires doc.version == 0
    ensures V.Versioned(s.(docs := s.docs[id := doc]))
  {
    V.OtherDocumentsKeep(s, s.(docs := s.docs[id := doc]), id);
  }

  lemma DeletedVersions(s: D.Store, id: int)
    requires V.Versioned(s)
    requires id in s.docs ==> s.docs[id].version == 0
    ensures V.Versioned(s.(docs := s.docs - {id}))
  {
    var t := s.(docs := s.docs - {id});
    forall d, v | d in t.docs && 1 <= v <= t.docs[d].version ensures V.Settled(t, d, v) {
      assert V.Settled(s, d, v);
    }
  }

  lemma UnpostedRecords(docs: DocTable, revisions: map<Posting, Revision>, id: int, doc: D.Document)
    requires Recorded(docs, revisions)
    requires id in docs ==> docs[id].version == 0
    requires doc.version == 0
    ensures Recorded(docs[id := doc], revisions)
    ensures Recorded(docs - {id}, revisions)
  {
  }

  lemma PutUnpostedKeeps(b: Books, id: int, doc: D.Document)
    requires DocumentsInOrder(b)
    requires id in b.store.docs ==> b.store.docs[id].status == D.Draft
    requires doc.version == 0 && Worth(doc)
    ensures DocumentsInOrder(b.(store := b.store.(docs := b.store.docs[id := doc])))
  {
    UnpostedVersions(b.store, id, doc);
    UnpostedRecords(b.store.docs, b.revisions, id, doc);
    L.PostingKeeps(b.store.docs, b.store.docs[id := doc], b.tasks, id);
  }

  lemma EditKeepsDocuments(b: Books, command: DocumentCommand)
    requires DocumentsInOrder(b)
    requires command.AddingLine? || command.ChangingLine? || command.DeletingLine? || command.ChangingHeader?
    ensures DocumentStep(b, command).Ok? ==> DocumentsInOrder(DocumentStep(b, command).value)
  {
    if DocumentStep(b, command).Ok? {
      var content := EditIsRedraft(b, command);
      TotalNonneg(content.lines);
      PutUnpostedKeeps(b, command.id, b.store.docs[command.id].(content := content, total := D.Total(content.lines)));
    }
  }

  lemma DeleteKeepsDocuments(b: Books, id: int)
    requires DocumentsInOrder(b)
    ensures DeleteDraft(b, id).Ok? ==> DocumentsInOrder(DeleteDraft(b, id).value)
  {
    if DeleteDraft(b, id).Ok? {
      DeletedVersions(b.store, id);
      UnpostedRecords(b.store.docs, b.revisions, id, b.store.docs[id]);
      L.PostingKeeps(b.store.docs, b.store.docs - {id}, b.tasks, id);
    }
  }

  lemma {:induction false} DebtsKeepDocuments(b: Books, date: int, rows: seq<Debt>)
    requires DocumentsInOrder(b)
    ensures ImportDebts(b.store.docs, date, rows).Ok? ==>
      DocumentsInOrder(b.(store := b.store.(docs := ImportDebts(b.store.docs, date, rows).value)))
  {
    if |rows| > 0 && ImportDebts(b.store.docs, date, rows).Ok? {
      var before, row := ImportDebts(b.store.docs, date, rows[..|rows| - 1]), rows[|rows| - 1];
      DebtsKeepDocuments(b, date, rows[..|rows| - 1]);
      if row.balance != 0 {
        PutUnpostedKeeps(b.(store := b.store.(docs := before.value)), row.id,
                         OpeningDocument(date, row.partner, row.balance));
      }
    }
  }

  // ------------------------------------------------------------ postings

  /** The revision of a new version joins the others, which stay. */
  lemma NewRevision(docs: DocTable, revisions: map<Posting, Revision>, id: int, doc: D.Document)
    requires Recorded(docs, revisions)
    requires id in docs && doc.version == docs[id].version + 1
    requires doc.status == D.Posted
    ensures Recorded(docs[id := doc], StoreRevision(revisions, id, doc))
  {
    var after, stored := docs[id := doc], StoreRevision(revisions, id, doc);
    assert Posting(id, doc.version) !in revisions;
    forall d | d in after && after[d].version >= 1 ensures RecordsNow(stored, d, after[d]) {
      assert d != id ==> RecordsNow(revisions, d, docs[d]);
    }
  }

  /** The recovery revision a correction stores first is already there. */
  lemma RevisionIsThere(docs: DocTable, revisions: map<Posting, Revision>, id: int)
    requires Recorded(docs, revisions)
    requires id in docs && docs[id].version >= 1
    ensures StoreRevision(revisions, id, docs[id]) == revisions
  {
    assert RecordsNow(revisions, id, docs[id]);
  }

  lemma NewPostingTasks(docs: DocTable, tasks: seq<L.Task>, id: int, doc: D.Document)
    requires L.TasksInOrder(docs, tasks)
    requires id in docs && docs[id].status != D.Cancelled
    requires doc.status == D.Posted && doc.version == docs[id].version + 1
    ensures L.TasksInOrder(docs[id := doc], L.CreateTasks(L.CancelActive(tasks, id, docs[id].version), id, doc))
    ensures docs[id].status == D.Draft ==> L.TasksInOrder(docs[id := doc], L.CreateTasks(tasks, id, doc))
    ensures L.AllCovered(docs, tasks) ==>
      L.AllCovered(docs[id := doc], L.CreateTasks(L.CancelActive(tasks, id, docs[id].version), id, doc))
      && L.AllCovered(docs[id := doc], L.CreateTasks(tasks, id, doc))
  {
    var after := docs[id := doc];
    L.CancelActiveKeeps(docs, after, tasks, id);
    L.CreateKeeps(after, L.CancelActive(tasks, id, docs[id].version), id);
    if docs[id].status == D.Draft {
      L.PostingKeeps(docs, after, tasks, id);
      L.CreateKeeps(after, tasks, id);
    }
    if L.AllCovered(docs, tasks) {
      L.CreateCovers(docs, tasks, id, doc);
      L.WithdrawnIdentified(tasks, id, docs[id].version);
      L.CoverStays(docs, tasks, L.CancelActive(tasks, id, docs[id].version));
      L.CreateCovers(docs, L.CancelActive(tasks, id, docs[id].version), id, doc);
    }
  }

  lemma WorthWith(docs: DocTable, id: int, doc: D.Document)
    requires AllWorth(docs) && Worth(doc)
    ensures AllWorth(docs[id := doc])
  {
  }

  lemma PostKeepsDocuments(b: Books, id: int)
    requires DocumentsInOrder(b)
    ensures PostDocument(b, id).Ok? ==> DocumentsInOrder(PostDocument(b, id).value)
  {
    var r := PostDocument(b, id);
    if r.Ok? {
      var docs, doc := b.store.docs, r.value.store.docs[id];
      D.PostKeepsCache(b.store, id);
      V.PostKeepsVersions(b.store, id);
      D.PostWrites(b.store, id);
      NewRevision(docs, b.revisions, id, doc);
      NewPostingTasks(docs, b.tasks, id, doc);
      WorthWith(docs, id, doc);
    }
  }

  lemma RepostKeepsDocuments(b: Books, id: int, content: S.Content, reason: nat)
    requires DocumentsInOrder(b)
    ensures var r := RepostDocument(b, id, content, reason);
      r.Ok? ==> DocumentsInOrder(r.value)
  {
    var r := RepostDocument(b, id, content, reason);
    if r.Ok? {
      var docs, doc := b.store.docs, r.value.store.docs[id];
      D.RepostKeepsCache(b.store, id, content);
      V.RepostKeepsVersions(b.store, id, content);
      V.RepostShape(b.store, id, content);
      assert docs[id].version >= 1;
      RevisionIsThere(docs, b.revisions, id);
      NewRevision(docs, b.revisions, id, doc);
      NewPostingTasks(docs, b.tasks, id, doc);
      TotalNonneg(content.lines);
      WorthWith(docs, id, doc);
    }
  }

  lemma CancelledRecords(docs: DocTable, revisions: map<Posting, Revision>, id: int)
    requires Recorded(docs, revisions) && id in docs
    ensures Recorded(docs[id := docs[id].(status := D.Cancelled)], revisions)
  {
    var after := docs[id := docs[id].(status := D.Cancelled)];
    forall d | d in after && after[d].version >= 1 ensures RecordsNow(revisions, d, after[d]) {
      assert RecordsNow(revisions, d, docs[d]);
    }
  }

  lemma CancelKeepsDocuments(b: Books, id: int)
    requires DocumentsInOrder(b)
    ensures CancelDocument(b, id).Ok? ==> DocumentsInOrder(CancelDocument(b, id).value)
  {
    var r := CancelDocument(b, id);
    if r.Ok? {
      var docs := b.store.docs;
      D.CancelKeepsCache(b.store, id);
      V.CancelKeepsVersions(b.store, id);
      D.CancelWrites(b.store, id);
      CancelledRecords(docs, b.revisions, id);
      L.CancelActiveKeeps(docs, r.value.store.docs, b.tasks, id);
      L.WithdrawnIdentified(b.tasks, id, docs[id].version);
      L.CoverStays(docs, b.tasks, r.value.tasks);
      assert docs[id].version >= 1;
      WorthWith(docs, id, r.value.store.docs[id]);
    }
  }

  // ------------------------------------------------------------ opening stock

  lemma ImportRowKeeps(s: D.Store, row: Count)
    requires D.CacheExact(s) && row.quantity >= 0
    ensures D.CacheExact(ImportRow(s, row))
    ensures forall o: S.Origin :: S.Select(ImportRow(s, row).log, o) == S.Select(s.log, o)
  {
    var change := S.Change(row.key, row.quantity - S.Balance(s.balances, row.key));
    var t := ImportRow(s, row);
    forall k: S.Key ensures S.Balance(t.balances, k) == S.Net(t.log, k) && S.Balance(t.balances, k) >= 0 {
      S.NetAppend(s.log, None, [change], k);
      assert [change][..0] == [];
      assert S.Sum([change][..0], k) == 0;
      assert S.Balance(s.balances, k) == S.Net(s.log, k) && S.Balance(s.balances, k) >= 0;
    }
    forall o: S.Origin ensures S.Select(t.log, o) == S.Select(s.log, o) {
      S.SelectAppend(s.log, None, [change], o);
    }
  }

  /** Counting stock keeps the balances a cache of the log and belongs to no document's versions. */
  lemma {:induction false} ImportRowsKeep(s: D.Store, rows: seq<Count>)
    requires D.CacheExact(s)
    requires forall i :: 0 <= i < |rows| ==> rows[i].quantity >= 0
    ensures D.CacheExact(ImportRows(s, rows))
    ensures ImportRows(s, rows).docs == s.docs
    ensures forall o: S.Origin :: S.Select(ImportRows(s, rows).log, o) == S.Select(s.log, o)
  {
    if |rows| > 0 {
      ImportRowsKeep(s, rows[..|rows| - 1]);
      ImportRowKeeps(ImportRows(s, rows[..|rows| - 1]), rows[|rows| - 1]);
    }
  }

  /** What the last row about a balance counted, or what it was when none did. */
  function LastCount(rows: seq<Count>, k: S.Key, otherwise: int): int
  {
    if |rows| == 0 then otherwise
    else if rows[|rows| - 1].key == k then rows[|rows| - 1].quantity
    else LastCount(rows[..|rows| - 1], k, otherwise)
  }

  /** An import leaves every balance at its last count and the others where they were. */
  lemma {:induction false} ImportedBalances(s: D.Store, rows: seq<Count>, k: S.Key)
    ensures S.Balance(ImportRows(s, rows).balances, k) == LastCount(rows, k, S.Balance(s.balances, k))
  {
    if |rows| > 0 {
      ImportedBalances(s, rows[..|rows| - 1], k);
    }
  }

  lemma SameSelections(s: D.Store, t: D.Store)
    requires V.Versioned(s) && t.docs == s.docs
    requires forall o: S.Origin :: S.Select(t.log, o) == S.Select(s.log, o)
    ensures V.Versioned(t)
  {
    forall d, v | d in t.docs && 1 <= v <= t.docs[d].version ensures V.Settled(t, d, v) {
      assert V.Settled(s, d, v);
    }
  }

  lemma CountsKeepBooks(b: Books, rows: seq<Count>)
    requires DocumentsInOrder(b)
    ensures ImportOpeningStock(b, rows).Ok? ==> DocumentsInOrder(ImportOpeningStock(b, rows).value)
  {
    if ImportOpeningStock(b, rows).Ok? {
      ImportRowsKeep(b.store, rows);
      SameSelections(b.store, ImportRows(b.store, rows));
    }
  }

  // ------------------------------------------------------------ every run

  lemma DocumentStepKeeps(b: Books, command: DocumentCommand)
    requires DocumentsInOrder(b)
    ensures DocumentStep(b, command).Ok? ==> DocumentsInOrder(DocumentStep(b, command).value)
  {
    match command
    case CreatingDraft(id, content) =>
      if CreateDraft(b, id, content).Ok? {
        PutUnpostedKeeps(b, id, D.Document(content, D.Draft, 0, 0));
      }
    case DeletingDraft(id) => DeleteKeepsDocuments(b, id);
    case PostingDocument(id) => PostKeepsDocuments(b, id);
    case RepostingDocument(id, content, reason) => RepostKeepsDocuments(b, id, content, reason);
    case CancellingDocument(id) => CancelKeepsDocuments(b, id);
    case ImportingStock(counts) => CountsKeepBooks(b, counts);
    case ImportingBalances(date, debts) => DebtsKeepDocuments(b, date, debts);
    case _ => EditKeepsDocuments(b, command);
  }

  lemma MovedTasksKeep(b: Books, tasks: seq<L.Task>)
    requires DocumentsInOrder(b)
    requires L.TasksInOrder(b.store.docs, tasks) && L.Identified(b.tasks, tasks)
    ensures DocumentsInOrder(b.(tasks := tasks))
  {
    L.CoverStays(b.store.docs, b.tasks, tasks);
  }

  lemma TaskStepKeeps(b: Books, command: TaskCommand)
    requires DocumentsInOrder(b)
    ensures TaskStep(b, command).Ok? ==> DocumentsInOrder(TaskStep(b, command).value)
  {
    if TaskStep(b, command).Ok? {
      match command {
        case StartingTask(id, user) =>
          L.StartKeeps(b.store.docs, b.tasks, id, user);
          L.StepsIdentify(b.tasks, id, [], user);
        case ConfirmingTask(id, payload, user) =>
          L.ConfirmKeeps(b.store.docs, b.tasks, id, payload, user);
          L.StepsIdentify(b.tasks, id, payload, user);
        case ReturningTask(id, user) =>
          L.ReturnKeeps(b.store.docs, b.tasks, id, user);
          L.StepsIdentify(b.tasks, id, [], user);
      }
      MovedTasksKeep(b, TaskStep(b, command).value.tasks);
    }
  }

  lemma StepKeeps(b: Books, command: Command)
    requires DocumentsInOrder(b)
    ensures DocumentsInOrder(Next(b, command))
  {
    match command
    case SetDirectory(_) =>
    case ForDocuments(document) => DocumentStepKeeps(b, document);
    case ForPayments(payment) => PaymentsKeepOff(b, payment);
    case ForTasks(task) => TaskStepKeeps(b, task);
  }

  /** Over every run the stock side stays in order. */
  lemma {:induction false} RunKeepsDocuments(b: Books, commands: seq<Command>)
    requires DocumentsInOrder(b)
    ensures DocumentsInOrder(Run(b, commands))
  {
    if |commands| > 0 {
      RunKeepsDocuments(b, commands[..|commands| - 1]);
      StepKeeps(Run(b, commands[..|commands| - 1]), commands[|commands| - 1]);
    }
  }

  /** Every run of the services, from books that are in order, stays in order. */
  lemma RunKeeps(b: Books, commands: seq<Command>, typed: bool)
    requires InOrder(b, typed)
    ensures InOrder(Run(b, commands), typed)
  {
    RunKeepsDocuments(b, commands);
    RunKeepsAllocations(b, commands, typed);
    RunKeepsLedger(b, commands);
  }

  lemma EmptyIsInOrder(dir: D.Directory)
    ensures InOrder(Empty(dir), true)
  {
    assert C.Entries([]) == [];
  }
}
