/** Posting, correcting and cancelling documents, and the imports, on the database in place. */
module DocumentService {
  import opened Common
  import B = Books
  import opened Database
  import opened S = Stock
  import D = Documents
  import L = Logistics
  import P = Payments
  import T = TaskService
  import Distribution

  // ------------------------------------------------------------ the loops

  method ValidateLines(dir: D.Directory, docType: DocType, lines: seq<Line>) returns (fault: Option<Fault>)
    ensures fault == D.CheckLines(dir, docType, lines)
  {
    var i := 0;
    while i < |lines|
      invariant 0 <= i <= |lines|
      invariant D.CheckLines(dir, docType, lines[..i]).None?
    {
      assert lines[..i + 1][..i] == lines[..i];
      fault := D.CheckLine(dir, docType, lines[i]);
      if fault.Some? {
        FirstBadLineStands(dir, docType, lines, i);
        return;
      }
      i := i + 1;
    }
    assert lines[..i] == lines;
    return None;
  }

  lemma {:induction false} FirstBadLineStands(dir: D.Directory, docType: DocType, lines: seq<Line>, i: nat)
    requires i < |lines| && D.CheckLines(dir, docType, lines[..i + 1]).Some?
    ensures D.CheckLines(dir, docType, lines) == D.CheckLines(dir, docType, lines[..i + 1])
    decreases |lines|
  {
    if i + 1 == |lines| {
      assert lines[..i + 1] == lines;
    } else {
      var rest := lines[..|lines| - 1];
      assert rest[..i + 1] == lines[..i + 1];
      FirstBadLineStands(dir, docType, rest, i);
    }
  }

  method LineTotals(lines: seq<Line>) returns (total: int)
    ensures total == D.Total(lines)
  {
    total := 0;
    var i := 0;
    while i < |lines|
      invariant 0 <= i <= |lines|
      invariant total == D.Total(lines[..i])
    {
      assert lines[..i + 1][..i] == lines[..i];
      total := total + D.LineTotal(lines[i]);
      i := i + 1;
    }
    assert lines[..i] == lines;
  }

  /** Read the locked balances one by one; a missing row counts as zero. */
  method LoadBalanceQuantities(balances: map<Key, int>, keys: set<Key>) returns (quantities: map<Key, int>)
    ensures quantities == Load(balances, keys)
  {
    quantities := map[];
    var left := keys;
    while left != {}
      invariant left <= keys && quantities == Load(balances, keys - left)
      decreases |left|
    {
      ghost var first :| first in left;
      var k :| k in left;
      quantities := quantities[k := if k in balances then balances[k] else 0];
      left := left - {k};
    }
    assert keys - left == keys;
  }

  /** Take a posting's changes off the quantities, letting them dip below zero. */
  method BaselineQuantities(current: map<Key, int>, prior: seq<Change>) returns (quantities: map<Key, int>)
    requires Keys(prior) <= current.Keys
    ensures quantities == D.Baseline(current, prior)
  {
    quantities := current;
    var i := 0;
    while i < |prior|
      invariant 0 <= i <= |prior|
      invariant quantities == D.Baseline(current, prior[..i])
    {
      assert prior[..i + 1][..i] == prior[..i];
      assert prior[i].key in Keys(prior);
      quantities := quantities[prior[i].key := quantities[prior[i].key] - prior[i].delta];
      i := i + 1;
    }
    assert prior[..i] == prior;
  }

  /** Take a posting's changes off the quantities, refusing at the first one that would dip. */
  method UndoMovements(prior: seq<Change>, start: map<Key, int>) returns (r: Result<map<Key, int>>)
    requires Keys(prior) <= start.Keys
    ensures r == D.Undo(prior, start)
  {
    var quantities := start;
    var i := 0;
    while i < |prior|
      invariant 0 <= i <= |prior|
      invariant Keys(prior[..i]) <= start.Keys && quantities.Keys == start.Keys
      invariant D.Undo(prior[..i], start) == Ok(quantities)
    {
      assert prior[..i + 1][..i] == prior[..i];
      PrefixKeys(prior, i + 1);
      assert prior[i].key in Keys(prior);
      var left := quantities[prior[i].key] - prior[i].delta;
      if left < 0 {
        DipStands(prior, start, i);
        return Err(Conflict);
      }
      quantities := quantities[prior[i].key := left];
      i := i + 1;
    }
    assert prior[..i] == prior;
    return Ok(quantities);
  }

  lemma PrefixKeys(prior: seq<Change>, n: nat)
    requires n <= |prior|
    ensures Keys(prior[..n]) <= Keys(prior)
  {
    forall k | k in Keys(prior[..n]) ensures k in Keys(prior) {
      var i :| 0 <= i < n && prior[..n][i].key == k;
      assert prior[i].key == k;
    }
  }

  lemma {:induction false} DipStands(prior: seq<Change>, start: map<Key, int>, i: nat)
    requires i < |prior| && Keys(prior) <= start.Keys && Keys(prior[..i + 1]) <= start.Keys
    requires D.Undo(prior[..i + 1], start) == Err(Conflict)
    ensures D.Undo(prior, start) == Err(Conflict)
    decreases |prior|
  {
    if i + 1 == |prior| {
      assert prior[..i + 1] == prior;
    } else {
      var rest := prior[..|prior| - 1];
      PrefixKeys(prior, |prior| - 1);
      assert rest[..i + 1] == prior[..i + 1];
      DipStands(rest, start, i);
    }
  }

  /** Write absolute quantities over the balances. */
  method ApplyBalanceQuantities(balances: map<Key, int>, quantities: map<Key, int>) returns (after: map<Key, int>)
    ensures after == balances + quantities
  {
    after := balances;
    var left := quantities.Keys;
    while left != {}
      invariant left <= quantities.Keys && after.Keys == balances.Keys + (quantities.Keys - left)
      invariant forall k :: k in after ==>
        after[k] == if k in quantities && k !in left then quantities[k] else balances[k]
      decreases |left|
    {
      ghost var first :| first in left;
      var k :| k in left;
      after := after[k := quantities[k]];
      left := left - {k};
    }
    assert after == balances + quantities;
  }

  /** Add one movement row per change. */
  method WriteStockMovements(log: seq<Movement>, origin: Option<Origin>, changes: seq<Change>)
    returns (after: seq<Movement>)
    ensures after == log + Stamped(origin, changes)
  {
    after := log;
    var i := 0;
    while i < |changes|
      invariant 0 <= i <= |changes|
      invariant after == log + Stamped(origin, changes)[..i]
    {
      after := after + [Movement(origin, changes[i])];
      i := i + 1;
    }
  }

  /** The changes of the posting in force, read off the log. */
  method ActivePostingMovements(log: seq<Movement>, origin: Origin) returns (changes: seq<Change>)
    ensures changes == Select(log, origin)
  {
    changes := [];
    var i := 0;
    while i < |log|
      invariant 0 <= i <= |log|
      invariant changes == Select(log[..i], origin)
    {
      assert log[..i + 1][..i] == log[..i];
      if log[i].origin == Some(origin) {
        changes := changes + [log[i].change];
      }
      i := i + 1;
    }
    assert log[..i] == log;
  }

  // ------------------------------------------------------------ posting

  /** Everything a posting checks, in order. */
  method ValidateBeforePost(dir: D.Directory, content: Content) returns (fault: Option<Fault>)
    ensures fault == D.CheckBeforePost(dir, content)
  {
    fault := D.CheckWarehouses(dir, content);
    if fault.Some? {
      return;
    }
    if |content.lines| == 0 {
      return Some(Unprocessable);
    }
    fault := D.CheckPartner(dir, content.docType, content.partner);
    if fault.Some? {
      return;
    }
    fault := ValidateLines(dir, content.docType, content.lines);
  }

  /** Plan a document on the balances it locked. */
  method PlanOn(content: Content, quantities: map<Key, int>) returns (plan: Result<Plan>)
    requires content.warehouse.Some? && D.StockKeys(content) <= quantities.Keys
    ensures plan == D.PlanContent(content, quantities)
  {
    D.StockKeysCover(content, quantities);
    plan := PlanDocumentMovements(content.docType, D.Source(content), D.Target(content), content.lines, quantities);
  }

  /** Afterwards the version has a revision; an older one stands, and a new one is the document as it is. */
  method StoreRevision(db: Db, id: int)
    requires id in db.docs
    modifies db`revisions
    ensures var p := B.Posting(id, db.docs[id].version);
      && db.revisions.Keys == old(db.revisions).Keys + {p}
      && (forall q :: q in old(db.revisions) ==> db.revisions[q] == old(db.revisions)[q])
      && (p !in old(db.revisions) ==>
            db.revisions[p] == B.Revision(db.docs[id].content, db.docs[id].status, db.docs[id].total))
    ensures db.revisions == B.StoreRevision(old(db.revisions), id, db.docs[id])
  {
    var p := B.Posting(id, db.docs[id].version);
    if p !in db.revisions {
      db.revisions := db.revisions[p := B.Snapshot(db.docs[id])];
    }
  }

  /** The store after a posting with a given plan. */
  ghost function PostedStore(s: D.Store, id: int, plan: Plan): D.Store
    requires id in s.docs
  {
    var doc := s.docs[id];
    D.Store(
      s.docs[id := doc.(status := D.Posted, version := doc.version + 1)],
      s.balances + plan.quantities,
      s.log + Stamped(Some(Origin(id, doc.version + 1, Apply)), plan.changes))
  }

  lemma PostRewrites(s: D.Store, id: int, plan: Result<Plan>)
    requires id in s.docs && D.Ready(s.docs[id].content)
    requires plan == D.PlanContent(s.docs[id].content, Load(s.balances, D.StockKeys(s.docs[id].content)))
    ensures D.Post(s, id) == if plan.Err? then Err(plan.fault) else Ok(PostedStore(s, id, plan.value))
  {
  }

  /** Write a planned posting: balances, rows, status and version. */
  method WritePosting(db: Db, id: int, plan: Plan)
    requires id in db.docs
    modifies db`docs, db`balances, db`log
    ensures db.Contents().store == PostedStore(old(db.Contents().store), id, plan)
  {
    var doc := db.docs[id];
    db.balances := ApplyBalanceQuantities(db.balances, plan.quantities);
    db.log := WriteStockMovements(db.log, Some(Origin(id, doc.version + 1, Apply)), plan.changes);
    db.docs := db.docs[id := doc.(status := D.Posted, version := doc.version + 1)];
  }

  /** The stock half of a posting. */
  method PostStock(db: Db, id: int) returns (r: Result<()>)
    requires id in db.docs && D.Ready(db.docs[id].content)
    modifies db`docs, db`balances, db`log
    ensures StockAnswers(D.Post(old(db.Contents().store), id), r, old(db.Contents().store), db.Contents().store)
  {
    var content := db.docs[id].content;
    var start := LoadBalanceQuantities(db.balances, D.StockKeys(content));
    var plan := PlanOn(content, start);
    PostRewrites(db.Contents().store, id, plan);
    if plan.Err? {
      return Err(plan.fault);
    }
    WritePosting(db, id, plan.value);
    return Ok(());
  }

  /** The stock half of an operation answers as its step on the store says. */
  ghost predicate StockAnswers(step: Result<D.Store>, answer: Result<()>, before: D.Store, after: D.Store)
  {
    if step.Ok? then answer.Ok? && after == step.value else answer == Err(step.fault) && after == before
  }

  /** Validate the draft, then post its stock. */
  method PostChecked(db: Db, id: int) returns (r: Result<()>)
    requires id in db.docs
    modifies db`docs, db`balances, db`log
    ensures StockAnswers(B.CheckedPost(old(db.Contents()), id), r, old(db.Contents().store), db.Contents().store)
    ensures id in db.docs
  {
    var fault := ValidateBeforePost(db.dir, db.docs[id].content);
    if fault.Some? {
      return Err(fault.value);
    }
    r := PostStock(db, id);
  }

  method PostDocument(db: Db, id: int) returns (r: Result<()>)
    modifies db
    ensures Answers(B.PostDocument(old(db.Contents()), id), r, old(db.Contents()), db.Contents())
  {
    if id !in db.docs {
      return Err(NotFound);
    }
    if db.docs[id].status != D.Draft {
      return Err(Conflict);
    }
    r := PostChecked(db, id);
    if r.Err? {
      return;
    }
    RecordPosting(db, id);
  }

  /** What follows a posting: its revision and its tasks. */
  method RecordPosting(db: Db, id: int)
    requires id in db.docs
    modifies db`revisions, db`tasks
    ensures db.Contents() == old(db.Contents()).(
      revisions := B.StoreRevision(old(db.revisions), id, db.docs[id]),
      tasks := L.CreateTasks(old(db.tasks), id, db.docs[id]))
  {
    StoreRevision(db, id);
    T.CreateTasksForDocument(db, id);
  }

  // ------------------------------------------------------------ correcting

  method BuildRepostCandidate(dir: D.Directory, content: Content) returns (fault: Option<Fault>)
    ensures fault == D.CheckCandidate(dir, content)
  {
    fault := D.CheckPartner(dir, content.docType, content.partner);
    if fault.Some? {
      return;
    }
    fault := D.CheckReferences(dir, content);
    if fault.Some? {
      return;
    }
    fault := D.CheckWarehouses(dir, content);
    if fault.Some? {
      return;
    }
    fault := ValidateLines(dir, content.docType, content.lines);
  }

  /** What posted payments allow a correction to change. */
  method ValidateRepostAllocations(payments: P.PayTable, id: int, before: Content, after: Content, total: int)
    returns (fault: Option<Fault>)
    ensures fault == P.CheckRepostAllocations(payments, id, before, after, total)
  {
    if !P.HasActive(payments, id) {
      return None;
    }
    var paid := Distribution.PostedAllocatedAmount(payments, id, None);
    if after.partner != before.partner || after.docType.Adjustment? || after.docType.Transfer? {
      return Some(Conflict);
    }
    var expected := if after.docType.Outgoing? then P.CustomerPayment else P.SupplierPayment;
    if exists p :: p in payments && P.Touches(payments[p], id) && payments[p].payType != expected {
      return Some(Conflict);
    }
    return if paid > total then Some(Conflict) else None;
  }

  /** Plan the new content on the balances without the old posting. */
  method PlanCorrection(balances: map<Key, int>, prior: seq<Change>, content: Content) returns (plan: Result<Plan>)
    requires D.Ready(content)
    ensures plan == CorrectionPlan(balances, prior, content)
  {
    var current := LoadBalanceQuantities(balances, Keys(prior) + D.StockKeys(content));
    var baseline := BaselineQuantities(current, prior);
    plan := PlanOn(content, baseline);
  }

  ghost function CorrectionPlan(balances: map<Key, int>, prior: seq<Change>, content: Content): Result<Plan>
    requires D.Ready(content)
  {
    D.PlanContent(content, D.Baseline(Load(balances, Keys(prior) + D.StockKeys(content)), prior))
  }

  /** The store after a correction with a given plan. */
  ghost function Rewritten(s: D.Store, id: int, content: Content, plan: Plan): D.Store
    requires id in s.docs
  {
    var doc := s.docs[id];
    D.Store(
      s.docs[id := D.Document(content, doc.status, doc.version + 1, D.Total(content.lines))],
      s.balances + plan.quantities,
      D.CorrectedLog(s.log, id, doc.version, D.ActiveChanges(s, id), plan.changes))
  }

  lemma RepostRewrites(s: D.Store, id: int, content: Content, plan: Result<Plan>)
    requires id in s.docs && D.Ready(content)
    requires plan == CorrectionPlan(s.balances, D.ActiveChanges(s, id), content)
    requires |D.ActiveChanges(s, id)| > 0
    ensures D.Repost(s, id, content) == if plan.Err? then Err(plan.fault) else Ok(Rewritten(s, id, content, plan.value))
  {
  }

  /** Write a planned correction: balances, the reversed rows, the new rows, the document. */
  method WriteCorrection(db: Db, id: int, content: Content, prior: seq<Change>, plan: Plan)
    requires id in db.docs && prior == D.ActiveChanges(db.Contents().store, id)
    modifies db`docs, db`balances, db`log
    ensures db.Contents().store == Rewritten(old(db.Contents().store), id, content, plan)
  {
    var doc := db.docs[id];
    var total := LineTotals(content.lines);
    db.balances := ApplyBalanceQuantities(db.balances, plan.quantities);
    D.CorrectedInTurn(db.log, id, doc.version, prior, plan.changes);
    db.log := WriteStockMovements(db.log, Some(Origin(id, doc.version, Reverse)), Reversed(prior));
    db.log := WriteStockMovements(db.log, Some(Origin(id, doc.version + 1, Apply)), plan.changes);
    db.docs := db.docs[id := D.Document(content, doc.status, doc.version + 1, total)];
  }

  /** The stock half of a correction: take the old posting back, plan the new content, write both. */
  method RepostStock(db: Db, id: int, content: Content) returns (r: Result<()>)
    requires id in db.docs && D.Ready(content)
    modifies db`docs, db`balances, db`log
    ensures StockAnswers(D.Repost(old(db.Contents().store), id, content), r,
                         old(db.Contents().store), db.Contents().store)
  {
    var prior := ActivePostingMovements(db.log, Origin(id, db.docs[id].version, Apply));
    if |prior| == 0 {
      return Err(Conflict);
    }
    var plan := PlanCorrection(db.balances, prior, content);
    RepostRewrites(db.Contents().store, id, content, plan);
    if plan.Err? {
      return Err(plan.fault);
    }
    WriteCorrection(db, id, content, prior, plan.value);
    return Ok(());
  }

  /** The reason is given by its length without surrounding blanks. */
  method RepostDocument(db: Db, id: int, content: Content, reason: nat) returns (r: Result<()>)
    modifies db
    ensures Answers(B.RepostDocument(old(db.Contents()), id, content, reason), r, old(db.Contents()), db.Contents())
  {
    if |content.lines| == 0 || !B.PricedLines(content.lines) {
      return Err(Unprocessable);
    }
    if id !in db.docs {
      return Err(NotFound);
    }
    if db.docs[id].status != D.Posted {
      return Err(Conflict);
    }
    if reason < 3 {
      return Err(Unprocessable);
    }
    var version, saved := db.docs[id].version, db.revisions;
    StoreRevision(db, id);
    r := CorrectStock(db, id, content);
    if r.Err? {
      db.revisions := saved;
      return;
    }
    StoreRevision(db, id);
    T.CancelActiveTasksForDocumentVersion(db, id, version);
    T.CreateTasksForDocument(db, id);
  }

  /** Validate the candidate against directory and payments, then correct the stock. */
  method CorrectStock(db: Db, id: int, content: Content) returns (r: Result<()>)
    requires id in db.docs && |content.lines| > 0
    modifies db`docs, db`balances, db`log
    ensures StockAnswers(Correction(old(db.Contents()), id, content), r, old(db.Contents().store), db.Contents().store)
  {
    var fault := BuildRepostCandidate(db.dir, content);
    if fault.Some? {
      return Err(fault.value);
    }
    var total := LineTotals(content.lines);
    fault := ValidateRepostAllocations(db.payments, id, db.docs[id].content, content, total);
    if fault.Some? {
      return Err(fault.value);
    }
    r := RepostStock(db, id, content);
  }

  ghost function Correction(b: B.Books, id: int, content: Content): Result<D.Store>
    requires id in b.store.docs && |content.lines| > 0
  {
    var step :- B.Corrected(b, id, content);
    Ok(step.store)
  }

  // ------------------------------------------------------------ cancelling

  method CancelStock(db: Db, id: int) returns (r: Result<()>)
    requires id in db.docs
    modifies db`docs, db`balances, db`log
    ensures StockAnswers(D.Cancel(old(db.Contents().store), id), r, old(db.Contents().store), db.Contents().store)
  {
    var doc := db.docs[id];
    var prior := ActivePostingMovements(db.log, Origin(id, doc.version, Apply));
    if |prior| == 0 {
      return Err(Conflict);
    }
    var start := LoadBalanceQuantities(db.balances, Keys(prior));
    var quantities :- UndoMovements(prior, start);
    db.balances := ApplyBalanceQuantities(db.balances, quantities);
    db.log := WriteStockMovements(db.log, Some(Origin(id, doc.version, Reverse)), Reversed(prior));
    db.docs := db.docs[id := doc.(status := D.Cancelled)];
    return Ok(());
  }

  method CancelDocument(db: Db, id: int) returns (r: Result<()>)
    modifies db
    ensures Answers(B.CancelDocument(old(db.Contents()), id), r, old(db.Contents()), db.Contents())
  {
    if id !in db.docs {
      return Err(NotFound);
    }
    if db.docs[id].status != D.Posted {
      return Err(Conflict);
    }
    if P.HasActive(db.payments, id) {
      return Err(Conflict);
    }
    var fault := D.CheckWarehouses(db.dir, db.docs[id].content);
    if fault.Some? {
      return Err(fault.value);
    }
    r := CancelStock(db, id);
    if r.Err? {
      return;
    }
    T.CancelActiveTasksForDocumentVersion(db, id, db.docs[id].version);
  }

  // ------------------------------------------------------------ drafts

  method CreateDocument(db: Db, id: int, content: Content) returns (r: Result<()>)
    modifies db`docs
    ensures Answers(B.CreateDraft(old(db.Contents()), id, content), r, old(db.Contents()), db.Contents())
  {
    if id in db.docs {
      return Err(Conflict);
    }
    if |content.lines| > 0 {
      return Err(Unprocessable);
    }
    var fault := D.CheckPartner(db.dir, content.docType, content.partner);
    if fault.None? {
      fault := D.CheckReferences(db.dir, content);
    }
    if fault.Some? {
      return Err(fault.value);
    }
    db.docs := db.docs[id := D.Document(content, D.Draft, 0, 0)];
    return Ok(());
  }

  /** Give a draft other content and sum its total again. */
  method Redraft(db: Db, id: int, content: Content)
    requires id in db.docs
    modifies db`docs
    ensures db.Contents() == B.Redrafted(old(db.Contents()), id, content)
  {
    var total := LineTotals(content.lines);
    db.docs := db.docs[id := db.docs[id].(content := content, total := total)];
  }

  method AddDocumentLine(db: Db, id: int, line: Line) returns (r: Result<()>)
    modifies db`docs
    ensures Answers(B.AddLine(old(db.Contents()), id, line), r, old(db.Contents()), db.Contents())
  {
    if !B.PricedLines([line]) {
      return Err(Unprocessable);
    }
    var fault := B.CheckDraftEdit(db.Contents(), id);
    if fault.Some? {
      return Err(fault.value);
    }
    var content := db.docs[id].content;
    fault := D.CheckLine(db.dir, content.docType, line);
    if fault.Some? {
      return Err(fault.value);
    }
    Redraft(db, id, content.(lines := content.lines + [line]));
    return Ok(());
  }

  method UpdateDocumentLine(db: Db, id: int, n: int, patch: B.LinePatch) returns (r: Result<()>)
    modifies db`docs
    ensures Answers(B.ChangeLine(old(db.Contents()), id, n, patch), r, old(db.Contents()), db.Contents())
  {
    if patch.price < 0 || B.Or(patch.quantity, 0) < 0 {
      return Err(Unprocessable);
    }
    var fault := B.CheckDraftEdit(db.Contents(), id);
    if fault.Some? {
      return Err(fault.value);
    }
    var content := db.docs[id].content;
    if !(0 <= n < |content.lines|) {
      return Err(NotFound);
    }
    var line := B.PatchedLine(content.lines[n], patch);
    fault := D.CheckLine(db.dir, content.docType, line);
    if fault.Some? {
      return Err(fault.value);
    }
    Redraft(db, id, content.(lines := content.lines[n := line]));
    return Ok(());
  }

  method DeleteDocumentLine(db: Db, id: int, n: int) returns (r: Result<()>)
    modifies db`docs
    ensures Answers(B.DeleteLine(old(db.Contents()), id, n), r, old(db.Contents()), db.Contents())
  {
    var fault := B.CheckDraftEdit(db.Contents(), id);
    if fault.Some? {
      return Err(fault.value);
    }
    var content := db.docs[id].content;
    if !(0 <= n < |content.lines|) {
      return Err(NotFound);
    }
    Redraft(db, id, content.(lines := content.lines[..n] + content.lines[n + 1..]));
    return Ok(());
  }

  /** Price every line again under a changed header. */
  method RepriceLines(lines: seq<Line>, prices: seq<int>) returns (repriced: seq<Line>)
    requires |prices| == |lines|
    ensures repriced == B.Repriced(lines, prices)
  {
    repriced := [];
    var i := 0;
    while i < |lines|
      invariant 0 <= i <= |lines| && |repriced| == i
      invariant forall j :: 0 <= j < i ==> repriced[j] == lines[j].(price := prices[j])
    {
      repriced := repriced + [lines[i].(price := prices[i])];
      i := i + 1;
    }
  }

  method UpdateDocumentHeader(db: Db, id: int, patch: B.HeaderPatch, prices: seq<int>) returns (r: Result<()>)
    modifies db`docs
    ensures Answers(B.ChangeHeader(old(db.Contents()), id, patch, prices), r, old(db.Contents()), db.Contents())
  {
    var fault := B.CheckDraftEdit(db.Contents(), id);
    if fault.Some? {
      return Err(fault.value);
    }
    var content := db.docs[id].content;
    if !B.PricesFor(content.lines, prices) {
      return Err(Unprocessable);
    }
    var lines := RepriceLines(content.lines, prices);
    var next := B.PatchedHeader(content, patch, prices);
    assert next.lines == lines;
    fault := D.CheckPartner(db.dir, next.docType, next.partner);
    if fault.None? {
      fault := D.CheckReferences(db.dir, next);
    }
    if fault.None? {
      fault := ValidateLines(db.dir, next.docType, lines);
    }
    if fault.Some? {
      return Err(fault.value);
    }
    Redraft(db, id, next);
    return Ok(());
  }

  method DeleteDraftDocument(db: Db, id: int) returns (r: Result<()>)
    modifies db`docs
    ensures Answers(B.DeleteDraft(old(db.Contents()), id), r, old(db.Contents()), db.Contents())
  {
    if id !in db.docs {
      return Err(NotFound);
    }
    if db.docs[id].status != D.Draft {
      return Err(Conflict);
    }
    db.docs := db.docs - {id};
    return Ok(());
  }

  // ------------------------------------------------------------ imports

  /** A counted row overwrites its balance and logs the difference. */
  method ApplyCount(db: Db, row: B.Count)
    modifies db`balances, db`log
    ensures db.Contents().store == B.ImportRow(old(db.Contents().store), row)
  {
    var delta := row.quantity - Balance(db.balances, row.key);
    db.balances := db.balances[row.key := row.quantity];
    db.log := db.log + [Movement(None, Change(row.key, delta))];
    assert Stamped(None, [Change(row.key, delta)]) == [Movement(None, Change(row.key, delta))];
  }

  method ApplyOpeningStock(db: Db, rows: seq<B.Count>) returns (r: Result<()>)
    modifies db`balances, db`log
    ensures Answers(B.ImportOpeningStock(old(db.Contents()), rows), r, old(db.Contents()), db.Contents())
  {
    if !B.CountedRows(db.dir, rows) {
      return Err(Unprocessable);
    }
    var i := 0;
    while i < |rows|
      invariant 0 <= i <= |rows|
      invariant db.Contents().store == B.ImportRows(old(db.Contents().store), rows[..i])
    {
      assert rows[..i + 1][..i] == rows[..i];
      ApplyCount(db, rows[i]);
      i := i + 1;
    }
    assert rows[..i] == rows;
    return Ok(());
  }

  lemma {:induction false} ClashStands(docs: map<int, D.Document>, date: int, rows: seq<B.Debt>, i: nat)
    requires i < |rows| && B.ImportDebts(docs, date, rows[..i + 1]).Err?
    ensures B.ImportDebts(docs, date, rows) == B.ImportDebts(docs, date, rows[..i + 1])
    decreases |rows|
  {
    if i + 1 == |rows| {
      assert rows[..i + 1] == rows;
    } else {
      var rest := rows[..|rows| - 1];
      assert rest[..i + 1] == rows[..i + 1];
      ClashStands(docs, date, rest, i);
    }
  }

  /** All the rows in one commit, or none. */
  method ApplyOpeningPartnerBalances(db: Db, date: int, rows: seq<B.Debt>) returns (r: Result<()>)
    modifies db`docs
    ensures Answers(B.ImportOpeningBalances(old(db.Contents()), date, rows), r, old(db.Contents()), db.Contents())
  {
    if !B.KnownPartners(db.dir, rows) {
      return Err(Unprocessable);
    }
    var saved := db.docs;
    var i := 0;
    while i < |rows|
      invariant 0 <= i <= |rows|
      invariant B.ImportDebts(saved, date, rows[..i]) == Ok(db.docs)
    {
      assert rows[..i + 1][..i] == rows[..i];
      var row := rows[i];
      if row.balance != 0 {
        if row.id in db.docs {
          ClashStands(saved, date, rows, i);
          db.docs := saved;
          return Err(Conflict);
        }
        db.docs := db.docs[row.id := B.OpeningDocument(date, row.partner, row.balance)];
      }
      i := i + 1;
    }
    assert rows[..i] == rows;
    return Ok(());
  }
}
