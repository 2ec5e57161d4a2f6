/** Tasks over their rows: which ones a posting gives rise to, and what each step makes of one. */
module TaskRules {
  import opened Common
  import opened Books
  import S = Stock
  import D = Documents
  import L = Logistics
  import Engine
  import H = History
  import V = Versions
  import Reachable

  // ------------------------------------------------------------ what a posting asks for

  /** A task at the right place for the content, asking line for line for its products and quantities. */
  predicate Demanded(task: L.Task, content: S.Content)
  {
    && (match content.docType
        case Incoming => task.kind == L.IncomingReceive && Some(task.warehouse) == content.warehouse
        case Outgoing => task.kind == L.OutgoingDispatch && Some(task.warehouse) == content.warehouse
        case Adjustment => false
        case Transfer =>
          || (task.kind == L.TransferDispatch && Some(task.warehouse) == content.warehouse)
          || (task.kind == L.TransferReceive && Some(task.warehouse) == content.destination))
    && |task.lines| == |content.lines|
    && (forall n :: 0 <= n < |task.lines| ==>
          task.lines[n].product == content.lines[n].product && task.lines[n].expected == content.lines[n].quantity)
    && |task.events| > 0
    && task.events[0]
       == L.Event(L.Generated, None, if task.kind == L.TransferReceive then L.Blocked else L.Pending)
  }

  predicate HasTask(tasks: seq<L.Task>, posting: Posting, kind: L.TaskKind)
  {
    exists i :: 0 <= i < |tasks|
      && tasks[i].doc == posting.doc && tasks[i].version == posting.version && tasks[i].kind == kind
  }

  /** The tasks a posting cannot be without. */
  predicate HasAll(tasks: seq<L.Task>, posting: Posting, docType: S.DocType)
  {
    match docType
    case Incoming => HasTask(tasks, posting, L.IncomingReceive)
    case Outgoing => HasTask(tasks, posting, L.OutgoingDispatch)
    case Adjustment => true
    case Transfer => HasTask(tasks, posting, L.TransferDispatch) && HasTask(tasks, posting, L.TransferReceive)
  }

  /** A task answers to a posting there was, and is what that posting asked for. */
  predicate AnswersToPosting(revisions: map<Posting, Revision>, task: L.Task)
  {
    var posting := Posting(task.doc, task.version);
    posting in revisions && Demanded(task, revisions[posting].content)
  }

  ghost predicate AllAnswer(revisions: map<Posting, Revision>, tasks: seq<L.Task>)
  {
    && (forall i :: 0 <= i < |tasks| ==> AnswersToPosting(revisions, tasks[i]))
    && (forall p :: p in revisions ==> HasAll(tasks, p, revisions[p].content.docType))
  }

  // ------------------------------------------------------------ generation

  lemma AddedTaskDemanded(id: int, doc: D.Document, spec: L.Spec)
    requires match doc.content.docType
             case Incoming => spec == L.Spec(spec.warehouse, L.IncomingReceive, L.Pending)
               && Some(spec.warehouse) == doc.content.warehouse
             case Outgoing => spec == L.Spec(spec.warehouse, L.OutgoingDispatch, L.Pending)
               && Some(spec.warehouse) == doc.content.warehouse
             case Adjustment => false
             case Transfer =>
               || (spec == L.Spec(spec.warehouse, L.TransferDispatch, L.Pending)
                   && Some(spec.warehouse) == doc.content.warehouse)
               || (spec == L.Spec(spec.warehouse, L.TransferReceive, L.Blocked)
                   && Some(spec.warehouse) == doc.content.destination)
    ensures Demanded(L.NewTask(id, doc, spec), doc.content)
  {
  }

  /** The tasks after generation: the old ones, and new ones of this posting as demanded. */
  predicate Generates(before: seq<L.Task>, after: seq<L.Task>, id: int, doc: D.Document)
  {
    && before <= after
    && (forall i :: |before| <= i < |after| ==>
          after[i].doc == id && after[i].version == doc.version && Demanded(after[i], doc.content))
    && HasAll(after, Posting(id, doc.version), doc.content.docType)
  }

  lemma OneGenerated(tasks: seq<L.Task>, id: int, doc: D.Document, spec: L.Spec)
    requires L.NoTasksYet(tasks, id, doc.version)
    requires Demanded(L.NewTask(id, doc, spec), doc.content)
    requires doc.content.docType in {S.Incoming, S.Outgoing}
    ensures Generates(tasks, L.AddTasks(tasks, id, doc, [spec]), id, doc)
  {
    assert !L.Exists(tasks, id, doc.version, spec.warehouse, spec.kind);
    L.AddsOne(tasks, id, doc, spec);
    assert L.AddTasks(tasks, id, doc, [spec])[|tasks|] == L.NewTask(id, doc, spec);
  }

  lemma TwoGenerated(tasks: seq<L.Task>, id: int, doc: D.Document, first: L.Spec, second: L.Spec)
    requires L.NoTasksYet(tasks, id, doc.version)
    requires Demanded(L.NewTask(id, doc, first), doc.content) && Demanded(L.NewTask(id, doc, second), doc.content)
    requires doc.content.docType.Transfer? && first.kind == L.TransferDispatch && second.kind == L.TransferReceive
    ensures Generates(tasks, L.AddTasks(tasks, id, doc, [first, second]), id, doc)
  {
    assert !L.Exists(tasks, id, doc.version, first.warehouse, first.kind);
    assert !L.Exists(tasks + [L.NewTask(id, doc, first)], id, doc.version, second.warehouse, second.kind);
    L.AddsTwo(tasks, id, doc, first, second);
    var after := L.AddTasks(tasks, id, doc, [first, second]);
    assert after[|tasks|] == L.NewTask(id, doc, first) && after[|tasks| + 1] == L.NewTask(id, doc, second);
  }

  /** A new posting gets the tasks it asks for and no others. */
  lemma CreatesAsDemanded(tasks: seq<L.Task>, id: int, doc: D.Document)
    requires L.NoTasksYet(tasks, id, doc.version)
    requires doc.status == D.Posted && doc.version >= 1 && D.Ready(doc.content)
    ensures Generates(tasks, L.CreateTasks(tasks, id, doc), id, doc)
  {
    var at := doc.content.warehouse.value;
    match doc.content.docType
    case Incoming =>
      AddedTaskDemanded(id, doc, L.Spec(at, L.IncomingReceive, L.Pending));
      OneGenerated(tasks, id, doc, L.Spec(at, L.IncomingReceive, L.Pending));
    case Outgoing =>
      AddedTaskDemanded(id, doc, L.Spec(at, L.OutgoingDispatch, L.Pending));
      OneGenerated(tasks, id, doc, L.Spec(at, L.OutgoingDispatch, L.Pending));
    case Adjustment =>
    case Transfer =>
      var to := doc.content.destination.value;
      AddedTaskDemanded(id, doc, L.Spec(at, L.TransferDispatch, L.Pending));
      AddedTaskDemanded(id, doc, L.Spec(to, L.TransferReceive, L.Blocked));
      TwoGenerated(tasks, id, doc, L.Spec(at, L.TransferDispatch, L.Pending), L.Spec(to, L.TransferReceive, L.Blocked));
  }

  // ------------------------------------------------------------ every run

  lemma TaskStaysDemanded(before: L.Task, after: L.Task, content: S.Content)
    requires H.TaskExtends(before, after) && Demanded(before, content)
    ensures Demanded(after, content)
  {
    assert after.events[0] == before.events[0];
  }

  lemma TaskStays(before: seq<L.Task>, after: seq<L.Task>, posting: Posting, kind: L.TaskKind)
    requires H.TasksExtend(before, after) && HasTask(before, posting, kind)
    ensures HasTask(after, posting, kind)
  {
    var i :| 0 <= i < |before|
      && before[i].doc == posting.doc && before[i].version == posting.version && before[i].kind == kind;
    assert H.TaskExtends(before[i], after[i]);
  }

  lemma AllStay(before: seq<L.Task>, after: seq<L.Task>, posting: Posting, docType: S.DocType)
    requires H.TasksExtend(before, after) && HasAll(before, posting, docType)
    ensures HasAll(after, posting, docType)
  {
    match docType
    case Incoming => TaskStays(before, after, posting, L.IncomingReceive);
    case Outgoing => TaskStays(before, after, posting, L.OutgoingDispatch);
    case Adjustment =>
    case Transfer =>
      TaskStays(before, after, posting, L.TransferDispatch);
      TaskStays(before, after, posting, L.TransferReceive);
  }

  lemma OldTaskAnswers(revisions: map<Posting, Revision>, later: map<Posting, Revision>, before: L.Task,
                       after: L.Task)
    requires AnswersToPosting(revisions, before)
    requires H.RevisionsExtend(revisions, later) && H.TaskExtends(before, after)
    ensures AnswersToPosting(later, after)
  {
    TaskStaysDemanded(before, after, revisions[Posting(before.doc, before.version)].content);
  }

  /** Without new postings and new tasks nothing is to be shown but that the old tasks keep what they ask for. */
  lemma MovedTasksAnswer(revisions: map<Posting, Revision>, before: seq<L.Task>, after: seq<L.Task>)
    requires AllAnswer(revisions, before)
    requires H.TasksExtend(before, after) && |after| == |before|
    ensures AllAnswer(revisions, after)
  {
    forall i | 0 <= i < |after| ensures AnswersToPosting(revisions, after[i]) {
      OldTaskAnswers(revisions, revisions, before[i], after[i]);
    }
    forall p | p in revisions ensures HasAll(after, p, revisions[p].content.docType) {
      AllStay(before, after, p, revisions[p].content.docType);
    }
  }

  /** A new posting and its tasks join the others. */
  lemma NewTasksAnswer(revisions: map<Posting, Revision>, tasks: seq<L.Task>, after: seq<L.Task>, id: int,
                       doc: D.Document)
    requires AllAnswer(revisions, tasks)
    requires Posting(id, doc.version) !in revisions
    requires Generates(tasks, after, id, doc)
    ensures AllAnswer(StoreRevision(revisions, id, doc), after)
  {
    var later := StoreRevision(revisions, id, doc);
    forall i | 0 <= i < |after| ensures AnswersToPosting(later, after[i]) {
      if i < |tasks| {
        assert AnswersToPosting(revisions, tasks[i]);
      }
    }
    forall p | p in later ensures HasAll(after, p, later[p].content.docType) {
      if p != Posting(id, doc.version) {
        assert H.TasksExtend(tasks, after);
        AllStay(tasks, after, p, revisions[p].content.docType);
      }
    }
  }

  /** No task is ahead of its document. */
  lemma NoTasksAhead(docs: map<int, D.Document>, tasks: seq<L.Task>, id: int, version: int)
    requires L.TasksInOrder(docs, tasks)
    requires id in docs && version > docs[id].version
    ensures L.NoTasksYet(tasks, id, version)
    ensures L.NoTasksYet(L.CancelActive(tasks, id, docs[id].version), id, version)
  {
    forall i | 0 <= i < |tasks| && tasks[i].doc == id ensures tasks[i].version != version {
      assert L.Current(docs, tasks[i]);
    }
  }

  lemma PostAnswers(b: Books, id: int)
    requires Engine.DocumentsInOrder(b) && AllAnswer(b.revisions, b.tasks)
    ensures PostDocument(b, id).Ok? ==>
      AllAnswer(PostDocument(b, id).value.revisions, PostDocument(b, id).value.tasks)
  {
    var r := PostDocument(b, id);
    if r.Ok? {
      var doc := r.value.store.docs[id];
      D.PostWrites(b.store, id);
      NoTasksAhead(b.store.docs, b.tasks, id, doc.version);
      CreatesAsDemanded(b.tasks, id, doc);
      NewTasksAnswer(b.revisions, b.tasks, r.value.tasks, id, doc);
    }
  }

  lemma CorrectedAnswers(b: Books, id: int, content: S.Content)
    requires Engine.DocumentsInOrder(b) && AllAnswer(b.revisions, b.tasks)
    requires |content.lines| > 0 && id in b.store.docs && b.store.docs[id].status == D.Posted
    ensures Corrected(b, id, content).Ok? ==>
      AllAnswer(Corrected(b, id, content).value.revisions, Corrected(b, id, content).value.tasks)
  {
    var r := Corrected(b, id, content);
    if r.Ok? {
      var before, after := b.store.docs[id], r.value.store.docs[id];
      D.RepostWrites(b.store, id, content);
      V.RepostShape(b.store, id, content);
      Engine.RevisionIsThere(b.store.docs, b.revisions, id);
      var left := L.CancelActive(b.tasks, id, before.version);
      H.WithdrawnTasksExtend(b.tasks, id, before.version);
      MovedTasksAnswer(b.revisions, b.tasks, left);
      NoTasksAhead(b.store.docs, b.tasks, id, after.version);
      CreatesAsDemanded(left, id, after);
      NewTasksAnswer(b.revisions, left, r.value.tasks, id, after);
    }
  }

  lemma CancelAnswers(b: Books, id: int)
    requires AllAnswer(b.revisions, b.tasks)
    ensures CancelDocument(b, id).Ok? ==>
      AllAnswer(CancelDocument(b, id).value.revisions, CancelDocument(b, id).value.tasks)
  {
    if CancelDocument(b, id).Ok? {
      H.WithdrawnTasksExtend(b.tasks, id, b.store.docs[id].version);
      MovedTasksAnswer(b.revisions, b.tasks, L.CancelActive(b.tasks, id, b.store.docs[id].version));
    }
  }

  lemma EditsLeaveTasks(b: Books, command: DocumentCommand)
    requires !command.PostingDocument? && !command.RepostingDocument? && !command.CancellingDocument?
    ensures DocumentStep(b, command).Ok? ==>
      DocumentStep(b, command).value.revisions == b.revisions && DocumentStep(b, command).value.tasks == b.tasks
  {
  }

  lemma DocumentStepAnswers(b: Books, command: DocumentCommand)
    requires Engine.DocumentsInOrder(b) && AllAnswer(b.revisions, b.tasks)
    ensures DocumentStep(b, command).Ok? ==>
      AllAnswer(DocumentStep(b, command).value.revisions, DocumentStep(b, command).value.tasks)
  {
    match command
    case PostingDocument(id) => PostAnswers(b, id);
    case RepostingDocument(id, content, reason) =>
      if RepostDocument(b, id, content, reason).Ok? {
        CorrectedAnswers(b, id, content);
      }
    case CancellingDocument(id) => CancelAnswers(b, id);
    case _ => EditsLeaveTasks(b, command);
  }

  lemma TaskStepAnswers(b: Books, command: TaskCommand)
    requires AllAnswer(b.revisions, b.tasks)
    ensures TaskStep(b, command).Ok? ==>
      AllAnswer(TaskStep(b, command).value.revisions, TaskStep(b, command).value.tasks)
  {
    if TaskStep(b, command).Ok? {
      H.TaskStepExtends(b, command);
      MovedTasksAnswer(b.revisions, b.tasks, TaskStep(b, command).value.tasks);
    }
  }

  lemma StepAnswers(b: Books, command: Command)
    requires Engine.DocumentsInOrder(b) && AllAnswer(b.revisions, b.tasks)
    ensures AllAnswer(Next(b, command).revisions, Next(b, command).tasks)
  {
    match command
    case SetDirectory(_) =>
    case ForDocuments(document) => DocumentStepAnswers(b, document);
    case ForPayments(payment) => PaymentsKeepOff(b, payment);
    case ForTasks(task) => TaskStepAnswers(b, task);
  }

  lemma {:induction false} TasksAnswer(dir: D.Directory, commands: seq<Command>)
    ensures AllAnswer(Reachable.Reached(dir, commands).revisions, Reachable.Reached(dir, commands).tasks)
  {
    if |commands| > 0 {
      var n := |commands| - 1;
      TasksAnswer(dir, commands[..n]);
      Reachable.ReachedIsInOrder(dir, commands[..n]);
      StepAnswers(Reachable.Reached(dir, commands[..n]), commands[n]);
    }
  }

  /**
   In every reachable state every posting has the tasks it asks for: a purchase one to receive and a sale one to
   dispatch at its warehouse, a transfer one to dispatch there and one to receive at its destination, an
   adjustment none. No task is there for anything else, none twice, and each asks line for line for what was
   posted.
   */
  lemma PostingsHaveWhatTheyAskFor(dir: D.Directory, commands: seq<Command>)
    ensures var b := Reachable.Reached(dir, commands);
      && (forall p :: p in b.revisions ==> HasAll(b.tasks, p, b.revisions[p].content.docType))
      && (forall i :: 0 <= i < |b.tasks| ==> AnswersToPosting(b.revisions, b.tasks[i]))
      && (forall i, j :: 0 <= i < j < |b.tasks| ==>
            (b.tasks[i].doc, b.tasks[i].version, b.tasks[i].kind)
            != (b.tasks[j].doc, b.tasks[j].version, b.tasks[j].kind))
  {
    TasksAnswer(dir, commands);
    Reachable.ReachedIsInOrder(dir, commands);
    var b := Reachable.Reached(dir, commands);
    forall i, j | 0 <= i < j < |b.tasks|
      ensures (b.tasks[i].doc, b.tasks[i].version, b.tasks[i].kind)
           != (b.tasks[j].doc, b.tasks[j].version, b.tasks[j].kind)
    {
      assert !(L.SamePosting(b.tasks[i], b.tasks[j]) && b.tasks[i].kind == b.tasks[j].kind);
    }
  }

  /** So the posting in force has exactly the tasks the document as it stands asks for. */
  lemma PostingInForceHasItsTasks(dir: D.Directory, commands: seq<Command>, id: int)
    requires id in Reachable.Reached(dir, commands).store.docs
    ensures var b := Reachable.Reached(dir, commands);
      var doc := b.store.docs[id];
      doc.version >= 1 ==>
        && HasAll(b.tasks, Posting(id, doc.version), doc.content.docType)
        && forall i :: 0 <= i < |b.tasks| && b.tasks[i].doc == id && b.tasks[i].version == doc.version ==>
             Demanded(b.tasks[i], doc.content)
  {
    var b := Reachable.Reached(dir, commands);
    var posting := Posting(id, b.store.docs[id].version);
    PostingsHaveWhatTheyAskFor(dir, commands);
    Reachable.RevisionsAreExact(dir, commands, posting);
    forall i | 0 <= i < |b.tasks| && b.tasks[i].doc == id && b.tasks[i].version == posting.version
      ensures posting in b.revisions && Demanded(b.tasks[i], b.revisions[posting].content)
    {
      assert AnswersToPosting(b.revisions, b.tasks[i]);
    }
  }

  // ------------------------------------------------------------ steps

  /** A reviewer sees every task, anybody else those of the own warehouses. */
  predicate Sees(tasks: seq<L.Task>, i: int, user: L.User)
  {
    0 <= i < |tasks| && (user.reviewer || tasks[i].warehouse in user.warehouses)
  }

  /** The move a step records. */
  predicate Records(before: L.Task, after: L.Task, kind: L.EventKind, status: L.TaskStatus)
  {
    after.status == status && after.events == before.events + [L.Event(kind, Some(before.status), status)]
  }

  /** A task that waits or is on its way is taken by whoever starts it. */
  lemma StartedExactly(tasks: seq<L.Task>, i: int, user: L.User)
    ensures L.Start(tasks, i, user).Ok? <==>
      Sees(tasks, i, user) && tasks[i].status in {L.Pending, L.InTransit}
    ensures L.Start(tasks, i, user).Err? ==>
      L.Start(tasks, i, user).fault == if Sees(tasks, i, user) then Conflict else NotFound
    ensures L.Start(tasks, i, user).Ok? ==>
      var after := L.Start(tasks, i, user).value;
      && after == tasks[i := after[i]]
      && Records(tasks[i], after[i], L.Started, L.InProgress)
      && after[i] == tasks[i].(status := after[i].status, events := after[i].events, assignee := Some(user.id))
  {
  }

  /** Only a reviewer returns a task, to nobody in particular, with what was reported but nothing confirmed. */
  lemma ReturnedExactly(tasks: seq<L.Task>, i: int, user: L.User)
    ensures L.Return(tasks, i, user).Ok? <==>
      Sees(tasks, i, user) && user.reviewer && tasks[i].status == L.NeedsReview
    ensures L.Return(tasks, i, user).Err? ==>
      L.Return(tasks, i, user).fault
      == if !Sees(tasks, i, user) then NotFound else if user.reviewer then Conflict else Forbidden
    ensures L.Return(tasks, i, user).Ok? ==>
      var after := L.Return(tasks, i, user).value;
      && after == tasks[i := after[i]]
      && Records(tasks[i], after[i], L.Returned, L.Pending)
      && after[i] == tasks[i].(status := after[i].status, events := after[i].events, assignee := None,
                               lines := after[i].lines)
      && |after[i].lines| == |tasks[i].lines|
      && forall n :: 0 <= n < |tasks[i].lines| ==>
           after[i].lines[n] == tasks[i].lines[n].(status := L.Unconfirmed)
  {
  }

  predicate Reports(payload: seq<L.Confirmation>, n: int)
  {
    exists j :: 0 <= j < |payload| && payload[j].line == n
  }

  /** Each line is named once, each name is a line, and whoever reports another quantity says why. */
  predicate NamesEachOnce(lines: seq<L.TaskLine>, payload: seq<L.Confirmation>)
  {
    && (forall j :: 0 <= j < |payload| ==> 0 <= payload[j].line < |lines|)
    && (forall j, k :: 0 <= j < k < |payload| ==> payload[j].line != payload[k].line)
    && (forall n :: 0 <= n < |lines| ==> Reports(payload, n))
    && (forall j :: 0 <= j < |payload| && payload[j].actual != lines[payload[j].line].expected ==>
          payload[j].commented)
  }

  /** Every quantity reported is the one expected. */
  predicate AsExpected(lines: seq<L.TaskLine>, payload: seq<L.Confirmation>)
    requires NamesEachOnce(lines, payload)
  {
    forall j :: 0 <= j < |payload| ==> payload[j].actual == lines[payload[j].line].expected
  }

  /** Each line carries what was reported for it, and whether that is what was expected. */
  predicate Carries(before: seq<L.TaskLine>, after: seq<L.TaskLine>, payload: seq<L.Confirmation>)
    requires NamesEachOnce(before, payload)
  {
    && |after| == |before|
    && forall j :: 0 <= j < |payload| ==>
         var line := before[payload[j].line];
         after[payload[j].line]
         == L.TaskLine(line.product, line.expected, Some(payload[j].actual),
                       if payload[j].actual == line.expected then L.Confirmed else L.Discrepancy)
  }

  lemma {:induction false} ReportedAt(payload: seq<L.Confirmation>, j: nat)
    requires j < |payload|
    requires forall k, m :: 0 <= k < m < |payload| ==> payload[k].line != payload[m].line
    ensures L.ReportedQuantity(payload, payload[j].line) == payload[j].actual
  {
    if j < |payload| - 1 {
      ReportedAt(payload[..|payload| - 1], j);
    }
  }

  lemma AsExpectedExactly(lines: seq<L.TaskLine>, payload: seq<L.Confirmation>)
    requires NamesEachOnce(lines, payload)
    ensures L.Matches(lines, payload) <==> AsExpected(lines, payload)
    ensures Carries(lines, L.ConfirmLines(lines, payload), payload)
  {
    forall j | 0 <= j < |payload| ensures L.ReportedQuantity(payload, payload[j].line) == payload[j].actual {
      ReportedAt(payload, j);
    }
    if AsExpected(lines, payload) {
      forall n | 0 <= n < |lines| ensures L.ReportedQuantity(payload, n) == lines[n].expected {
        assert Reports(payload, n);
        var j :| 0 <= j < |payload| && payload[j].line == n;
      }
    }
  }

  lemma CompleteExactly(task: L.Task, payload: seq<L.Confirmation>)
    ensures L.Complete(task, payload) <==> NamesEachOnce(task.lines, payload)
  {
    forall n ensures L.Mentions(payload, n) <==> Reports(payload, n) {
    }
  }

  /** The task a confirmation makes: done if every quantity is as expected, up for review otherwise. */
  predicate ConfirmedAs(before: L.Task, after: L.Task, payload: seq<L.Confirmation>)
    requires NamesEachOnce(before.lines, payload)
  {
    && (if AsExpected(before.lines, payload) then Records(before, after, L.Finished, L.Completed)
        else Records(before, after, L.Reported, L.NeedsReview))
    && Carries(before.lines, after.lines, payload)
    && after == before.(status := after.status, events := after.events, lines := after.lines)
  }

  /** The other half of a transfer, waiting for its dispatch. */
  predicate Waits(tasks: seq<L.Task>, k: int, dispatch: L.Task)
  {
    && 0 <= k < |tasks| && tasks[k].kind == L.TransferReceive && tasks[k].status == L.Blocked
    && tasks[k].doc == dispatch.doc && tasks[k].version == dispatch.version
  }

  /** The first task waiting for a finished dispatch is let through; every other one stands. */
  ghost predicate Released(before: seq<L.Task>, after: seq<L.Task>, i: int)
    requires 0 <= i < |before| == |after|
  {
    forall k :: 0 <= k < |before| && k != i ==>
      if after[i].status == L.Completed && before[i].kind == L.TransferDispatch
         && Waits(before, k, before[i]) && forall m :: 0 <= m < k ==> !Waits(before, m, before[i])
      then Records(before[k], after[k], L.Unblocked, L.InTransit)
           && after[k] == before[k].(status := after[k].status, events := after[k].events)
      else after[k] == before[k]
  }

  /** A task is confirmed exactly by who may, on a payload that is complete. */
  lemma ConfirmedExactly(tasks: seq<L.Task>, i: int, payload: seq<L.Confirmation>, user: L.User)
    ensures L.Confirm(tasks, i, payload, user).Ok? <==>
      && Sees(tasks, i, user) && tasks[i].status == L.InProgress
      && (tasks[i].assignee == Some(user.id) || user.reviewer)
      && NamesEachOnce(tasks[i].lines, payload)
    ensures L.Confirm(tasks, i, payload, user).Err? ==>
      L.Confirm(tasks, i, payload, user).fault
      == if !Sees(tasks, i, user) then NotFound
         else if tasks[i].status == L.InProgress && (tasks[i].assignee == Some(user.id) || user.reviewer)
         then Unprocessable else Conflict
    ensures L.Confirm(tasks, i, payload, user).Ok? ==>
      var after := L.Confirm(tasks, i, payload, user).value;
      |after| == |tasks| && ConfirmedAs(tasks[i], after[i], payload) && Released(tasks, after, i)
  {
    if Sees(tasks, i, user) {
      CompleteExactly(tasks[i], payload);
      if L.Confirm(tasks, i, payload, user).Ok? {
        AsExpectedExactly(tasks[i].lines, payload);
        ReleasedExactly(tasks, i, L.ConfirmedTask(tasks[i], payload));
      }
    }
  }

  lemma ReleasedExactly(tasks: seq<L.Task>, i: nat, task: L.Task)
    requires i < |tasks| && tasks[i].status == L.InProgress
    requires L.SamePosting(task, tasks[i]) && task.kind == tasks[i].kind
    requires task.status in {L.Completed, L.NeedsReview}
    ensures var updated := tasks[i := task];
      var after := if task.status == L.Completed then L.ActivateReceive(updated, task) else updated;
      |after| == |tasks| && after[i] == task && Released(tasks, after, i)
  {
    var updated := tasks[i := task];
    forall k | 0 <= k < |tasks|
      ensures Waits(tasks, k, tasks[i]) <==> L.BlockedReceive(updated[k], task.doc, task.version)
    {
    }
  }

  /** Withdrawing cancels a posting's tasks that are neither done nor cancelled, and no others. */
  lemma WithdrawnExactly(tasks: seq<L.Task>, id: int, version: int)
    ensures var after := L.CancelActive(tasks, id, version);
      |after| == |tasks| && forall i :: 0 <= i < |tasks| ==>
        if tasks[i].doc == id && tasks[i].version == version && tasks[i].status !in {L.Completed, L.Cancelled}
        then Records(tasks[i], after[i], L.Withdrawn, L.Cancelled)
             && after[i] == tasks[i].(status := after[i].status, events := after[i].events)
        else after[i] == tasks[i]
  {
  }
}
