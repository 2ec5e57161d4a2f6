/** Warehouse tasks: seven states, an event log per task, and the gate between the two halves of a transfer. */
module Logistics {
  import opened Common
  import Stock
  import Docs = Documents

  datatype TaskKind = IncomingReceive | OutgoingDispatch | TransferDispatch | TransferReceive

  datatype TaskStatus = Blocked | Pending | InTransit | InProgress | NeedsReview | Completed | Cancelled

  datatype LineStatus = Unconfirmed | Confirmed | Discrepancy

  datatype TaskLine = TaskLine(product: int, expected: int, actual: Option<int>, status: LineStatus)

  datatype EventKind = Generated | Started | Reported | Finished | Unblocked | Returned | Withdrawn

  datatype Event = Event(kind: EventKind, before: Option<TaskStatus>, after: TaskStatus)

  datatype Task = Task(
    doc: int,
    version: int,
    warehouse: int,
    kind: TaskKind,
    status: TaskStatus,
    assignee: Option<int>,
    lines: seq<TaskLine>,
    events: seq<Event>)

  datatype User = User(id: int, reviewer: bool, warehouses: set<int>)

  /** One confirmed line; a task line is named by its position. */
  datatype Confirmation = Confirmation(line: int, actual: int, commented: bool)

  predicate Active(task: Task)
  {
    task.status !in {Completed, Cancelled}
  }

  /** Move a task to another state and record the move. */
  function Move(task: Task, kind: EventKind, status: TaskStatus): Task
  {
    task.(status := status, events := task.events + [Event(kind, Some(task.status), status)])
  }

  // ------------------------------------------------------------ generation

  datatype Spec = Spec(warehouse: int, kind: TaskKind, status: TaskStatus)

  function Specs(content: Stock.Content): seq<Spec>
  {
    if content.warehouse.None? then [] else
      match content.docType
      case Incoming => [Spec(content.warehouse.value, IncomingReceive, Pending)]
      case Outgoing => [Spec(content.warehouse.value, OutgoingDispatch, Pending)]
      case Adjustment => []
      case Transfer =>
        if content.destination.None? then [] else
          [Spec(content.warehouse.value, TransferDispatch, Pending),
           Spec(content.destination.value, TransferReceive, Blocked)]
  }

  function ExpectedLines(lines: seq<Stock.Line>): (r: seq<TaskLine>)
    ensures |r| == |lines|
  {
    seq(|lines|, i requires 0 <= i < |lines| => TaskLine(lines[i].product, lines[i].quantity, None, Unconfirmed))
  }

  function NewTask(id: int, doc: Docs.Document, spec: Spec): Task
  {
    Task(id, doc.version, spec.warehouse, spec.kind, spec.status, None, ExpectedLines(doc.content.lines),
         [Event(Generated, None, spec.status)])
  }

  predicate Exists(tasks: seq<Task>, id: int, version: int, warehouse: int, kind: TaskKind)
  {
    exists i :: 0 <= i < |tasks| && tasks[i].doc == id && tasks[i].version == version
      && tasks[i].warehouse == warehouse && tasks[i].kind == kind
  }

  function AddTasks(tasks: seq<Task>, id: int, doc: Docs.Document, specs: seq<Spec>): seq<Task>
  {
    if |specs| == 0 then tasks else
      var before := AddTasks(tasks, id, doc, specs[..|specs| - 1]);
      var spec := specs[|specs| - 1];
      if Exists(before, id, doc.version, spec.warehouse, spec.kind) then before
      else before + [NewTask(id, doc, spec)]
  }

  function CreateTasks(tasks: seq<Task>, id: int, doc: Docs.Document): seq<Task>
  {
    if doc.status != Docs.Posted || doc.version <= 0 then tasks
    else AddTasks(tasks, id, doc, Specs(doc.content))
  }

  // ------------------------------------------------------------ transitions

  predicate Outdated(task: Task, id: int, version: int)
  {
    task.doc == id && task.version == version && Active(task)
  }

  function Withdraw(task: Task, id: int, version: int): Task
  {
    if Outdated(task, id, version) then Move(task, Withdrawn, Cancelled) else task
  }

  /** Cancel every open task of one posting. */
  function CancelActive(tasks: seq<Task>, id: int, version: int): (r: seq<Task>)
    ensures |r| == |tasks|
  {
    seq(|tasks|, i requires 0 <= i < |tasks| => Withdraw(tasks[i], id, version))
  }

  predicate Visible(task: Task, user: User)
  {
    user.reviewer || task.warehouse in user.warehouses
  }

  function Start(tasks: seq<Task>, i: int, user: User): Result<seq<Task>>
  {
    if !(0 <= i < |tasks|) || !Visible(tasks[i], user) then Err(NotFound)
    else if tasks[i].status !in {Pending, InTransit} then Err(Conflict)
    else Ok(tasks[i := Move(tasks[i], Started, InProgress).(assignee := Some(user.id))])
  }

  predicate Mentions(payload: seq<Confirmation>, line: int)
  {
    exists j :: 0 <= j < |payload| && payload[j].line == line
  }

  /** Every line exactly once, and a comment for every deviation. */
  predicate Complete(task: Task, payload: seq<Confirmation>)
  {
    && (forall j, k :: 0 <= j < k < |payload| ==> payload[j].line != payload[k].line)
    && (forall n :: 0 <= n < |task.lines| ==> Mentions(payload, n))
    && (forall j :: 0 <= j < |payload| ==>
          && 0 <= payload[j].line < |task.lines|
          && (payload[j].actual == task.lines[payload[j].line].expected || payload[j].commented))
  }

  /** The quantity reported for a line. */
  function ReportedQuantity(payload: seq<Confirmation>, line: int): (actual: int)
  {
    if |payload| == 0 then 0
    else if payload[|payload| - 1].line == line then payload[|payload| - 1].actual
    else ReportedQuantity(payload[..|payload| - 1], line)
  }

  function ConfirmLine(line: TaskLine, actual: int): TaskLine
  {
    line.(actual := Some(actual), status := if actual == line.expected then Confirmed else Discrepancy)
  }

  function ConfirmLines(lines: seq<TaskLine>, payload: seq<Confirmation>): (r: seq<TaskLine>)
    ensures |r| == |lines|
  {
    seq(|lines|, n requires 0 <= n < |lines| => ConfirmLine(lines[n], ReportedQuantity(payload, n)))
  }

  predicate Matches(lines: seq<TaskLine>, payload: seq<Confirmation>)
  {
    forall n :: 0 <= n < |lines| ==> ReportedQuantity(payload, n) == lines[n].expected
  }

  function ConfirmedTask(task: Task, payload: seq<Confirmation>): Task
  {
    (if Matches(task.lines, payload) then Move(task, Finished, Completed) else Move(task, Reported, NeedsReview))
    .(lines := ConfirmLines(task.lines, payload))
  }

  predicate BlockedReceive(task: Task, id: int, version: int)
  {
    task.doc == id && task.version == version && task.kind == TransferReceive && task.status == Blocked
  }

  /** The position of the first blocked receive task of a posting, or the length of the list. */
  function FirstBlocked(tasks: seq<Task>, id: int, version: int): (n: nat)
    ensures n <= |tasks|
    ensures n < |tasks| ==> BlockedReceive(tasks[n], id, version)
    ensures forall j :: 0 <= j < n ==> !BlockedReceive(tasks[j], id, version)
  {
    if |tasks| == 0 then 0
    else if BlockedReceive(tasks[0], id, version) then 0
    else 1 + FirstBlocked(tasks[1..], id, version)
  }

  /** A finished dispatch releases the receiving half of its transfer. */
  function ActivateReceive(tasks: seq<Task>, task: Task): seq<Task>
  {
    if task.kind != TransferDispatch then tasks else
      var n := FirstBlocked(tasks, task.doc, task.version);
      if n == |tasks| then tasks else tasks[n := Move(tasks[n], Unblocked, InTransit)]
  }

  function Confirm(tasks: seq<Task>, i: int, payload: seq<Confirmation>, user: User): Result<seq<Task>>
  {
    if !(0 <= i < |tasks|) || !Visible(tasks[i], user) then Err(NotFound)
    else if tasks[i].status != InProgress then Err(Conflict)
    else if tasks[i].assignee != Some(user.id) && !user.reviewer then Err(Conflict)
    else if !Complete(tasks[i], payload) then Err(Unprocessable)
    else
      var task := ConfirmedTask(tasks[i], payload);
      var updated := tasks[i := task];
      Ok(if task.status == Completed then ActivateReceive(updated, task) else updated)
  }

  function Reset(lines: seq<TaskLine>): (r: seq<TaskLine>)
    ensures |r| == |lines|
  {
    seq(|lines|, n requires 0 <= n < |lines| => lines[n].(status := Unconfirmed))
  }

  function Return(tasks: seq<Task>, i: int, user: User): Result<seq<Task>>
  {
    if !(0 <= i < |tasks|) || !Visible(tasks[i], user) then Err(NotFound)
    else if !user.reviewer then Err(Forbidden)
    else if tasks[i].status != NeedsReview then Err(Conflict)
    else Ok(tasks[i := Move(tasks[i], Returned, Pending).(assignee := None, lines := Reset(tasks[i].lines))])
  }

  // ------------------------------------------------------------ invariants

  /** The edges of the machine. */
  predicate Legal(event: Event)
  {
    match event.kind
    case Generated => event.before == None && event.after in {Pending, Blocked}
    case Started => event.before in {Some(Pending), Some(InTransit)} && event.after == InProgress
    case Reported => event.before == Some(InProgress) && event.after == NeedsReview
    case Finished => event.before == Some(InProgress) && event.after == Completed
    case Unblocked => event.before == Some(Blocked) && event.after == InTransit
    case Returned => event.before == Some(NeedsReview) && event.after == Pending
    case Withdrawn => event.before.Some? && event.before.value !in {Completed, Cancelled} && event.after == Cancelled
  }

  /** Replaying the events from generation gives the task's state. */
  predicate Replays(task: Task)
  {
    && |task.events| > 0
    && task.events[0].kind == Generated
    && (forall i :: 0 <= i < |task.events| ==> Legal(task.events[i]))
    && (forall i :: 0 < i < |task.events| ==> task.events[i].before == Some(task.events[i - 1].after))
    && task.events[|task.events| - 1].after == task.status
  }

  /** What the state of a task says about its lines and its assignee. */
  predicate Truthful(task: Task)
  {
    && (task.status == Completed ==>
          forall n :: 0 <= n < |task.lines| ==>
            task.lines[n].status == Confirmed && task.lines[n].actual == Some(task.lines[n].expected))
    && (task.status == NeedsReview ==>
          exists n :: 0 <= n < |task.lines| && task.lines[n].status == Discrepancy)
    && (task.status in {InProgress, NeedsReview, Completed} ==> task.assignee.Some?)
    && (task.status in {Blocked, Pending, InTransit} ==> task.assignee.None?)
  }

  predicate Sound(task: Task)
  {
    Replays(task) && Truthful(task)
  }

  predicate SamePosting(a: Task, b: Task)
  {
    a.doc == b.doc && a.version == b.version
  }

  /** The gate: a receive task follows its dispatch, which is done exactly when the task has been let through. */
  predicate Gated(tasks: seq<Task>, i: nat)
    requires i < |tasks|
  {
    tasks[i].kind == TransferReceive ==>
      && i > 0
      && SamePosting(tasks[i - 1], tasks[i])
      && tasks[i - 1].kind == TransferDispatch
      && (tasks[i].status == Blocked ==> Active(tasks[i - 1]))
      && (tasks[i].status !in {Blocked, Cancelled} ==> tasks[i - 1].status == Completed)
  }

  predicate Distinct(tasks: seq<Task>)
  {
    forall i, j :: 0 <= i < j < |tasks| ==> !(SamePosting(tasks[i], tasks[j]) && tasks[i].kind == tasks[j].kind)
  }

  /** A task belongs to a posting that happened; an open one to the posting in force. */
  predicate Current(docs: map<int, Docs.Document>, task: Task)
  {
    && task.doc in docs
    && 1 <= task.version <= docs[task.doc].version
    && docs[task.doc].status != Docs.Draft
    && (Active(task) ==> docs[task.doc].status == Docs.Posted && task.version == docs[task.doc].version)
  }

  predicate TasksInOrder(docs: map<int, Docs.Document>, tasks: seq<Task>)
  {
    && Distinct(tasks)
    && (forall i :: 0 <= i < |tasks| ==> Sound(tasks[i]))
    && (forall i :: 0 <= i < |tasks| ==> Gated(tasks, i))
    && (forall i :: 0 <= i < |tasks| ==> Current(docs, tasks[i]))
  }

  /** A legal move keeps the replay. */
  lemma MoveReplays(task: Task, kind: EventKind, status: TaskStatus)
    requires Replays(task)
    requires Legal(Event(kind, Some(task.status), status))
    ensures Replays(Move(task, kind, status))
  {
  }

  lemma StartKeeps(docs: map<int, Docs.Document>, tasks: seq<Task>, i: int, user: User)
    requires TasksInOrder(docs, tasks)
    ensures Start(tasks, i, user).Ok? ==> TasksInOrder(docs, Start(tasks, i, user).value)
  {
    var r := Start(tasks, i, user);
    if r.Ok? {
      assert Sound(tasks[i]) && Gated(tasks, i) && Current(docs, tasks[i]);
      MoveReplays(tasks[i], Started, InProgress);
      UpdateKeeps(docs, tasks, i, r.value[i]);
    }
  }

  /** Replacing one task by a sound one that answers to the same posting. */
  lemma UpdateKeeps(docs: map<int, Docs.Document>, tasks: seq<Task>, i: nat, task: Task)
    requires TasksInOrder(docs, tasks)
    requires i < |tasks|
    requires Sound(task)
    requires SamePosting(task, tasks[i]) && task.kind == tasks[i].kind
    requires Active(tasks[i]) && Active(task)
    requires tasks[i].status != Blocked && task.status != Blocked
    ensures TasksInOrder(docs, tasks[i := task])
  {
    var updated := tasks[i := task];
    assert Current(docs, tasks[i]);
    assert Gated(tasks, i);
    forall j | 0 <= j < |updated| ensures Sound(updated[j]) && Gated(updated, j) && Current(docs, updated[j]) {
      assert Sound(tasks[j]) && Gated(tasks, j) && Current(docs, tasks[j]);
    }
  }

  lemma ReturnKeeps(docs: map<int, Docs.Document>, tasks: seq<Task>, i: int, user: User)
    requires TasksInOrder(docs, tasks)
    ensures Return(tasks, i, user).Ok? ==> TasksInOrder(docs, Return(tasks, i, user).value)
  {
    var r := Return(tasks, i, user);
    if r.Ok? {
      assert Sound(tasks[i]);
      MoveReplays(tasks[i], Returned, Pending);
      UpdateKeeps(docs, tasks, i, r.value[i]);
    }
  }

  lemma ConfirmedTaskSound(task: Task, payload: seq<Confirmation>)
    requires Sound(task) && task.status == InProgress
    ensures Sound(ConfirmedTask(task, payload))
    ensures SamePosting(ConfirmedTask(task, payload), task) && ConfirmedTask(task, payload).kind == task.kind
    ensures ConfirmedTask(task, payload).status in {Completed, NeedsReview}
  {
    MoveReplays(task, Finished, Completed);
    MoveReplays(task, Reported, NeedsReview);
    var done := ConfirmedTask(task, payload);
    if !Matches(task.lines, payload) {
      var n :| 0 <= n < |task.lines| && ReportedQuantity(payload, n) != task.lines[n].expected;
      assert done.lines[n].status == Discrepancy;
    }
  }

  /** The receive task a dispatch releases is its own other half. */
  lemma BlockedIsNext(tasks: seq<Task>, i: nat, n: nat)
    requires Distinct(tasks)
    requires i < |tasks| && n < |tasks| && Gated(tasks, n)
    requires tasks[i].kind == TransferDispatch
    requires BlockedReceive(tasks[n], tasks[i].doc, tasks[i].version)
    ensures n == i + 1
  {
    if n - 1 < i {
      assert SamePosting(tasks[n - 1], tasks[i]);
    } else if n - 1 > i {
      assert SamePosting(tasks[i], tasks[n - 1]);
    }
  }

  /** A dispatch reported with deviations, or any other kind of task confirmed: nothing else moves. */
  lemma PlainConfirmKeeps(docs: map<int, Docs.Document>, tasks: seq<Task>, i: nat, task: Task)
    requires TasksInOrder(docs, tasks)
    requires i < |tasks| && tasks[i].status == InProgress
    requires Sound(task) && SamePosting(task, tasks[i]) && task.kind == tasks[i].kind
    requires task.status in {Completed, NeedsReview}
    requires task.status == NeedsReview || task.kind != TransferDispatch
             || FirstBlocked(tasks[i := task], task.doc, task.version) == |tasks|
    ensures TasksInOrder(docs, tasks[i := task])
  {
    var updated := tasks[i := task];
    assert Current(docs, tasks[i]);
    assert Gated(tasks, i);
    forall j | 0 <= j < |updated| ensures Sound(updated[j]) && Current(docs, updated[j]) {
      assert Sound(tasks[j]) && Current(docs, tasks[j]);
    }
    forall j | 0 <= j < |updated| ensures Gated(updated, j) {
      assert Gated(tasks, j);
      assert BlockedReceive(updated[j], task.doc, task.version) ==>
          task.status == NeedsReview || task.kind != TransferDispatch;
    }
  }

  lemma ReleaseKeeps(docs: map<int, Docs.Document>, tasks: seq<Task>, i: nat, task: Task)
    requires TasksInOrder(docs, tasks)
    requires i + 1 < |tasks| && tasks[i].status == InProgress
    requires Sound(task) && SamePosting(task, tasks[i])
    requires task.kind == tasks[i].kind == TransferDispatch && task.status == Completed
    requires BlockedReceive(tasks[i + 1], task.doc, task.version)
    ensures TasksInOrder(docs, tasks[i := task][i + 1 := Move(tasks[i + 1], Unblocked, InTransit)])
  {
    var updated := tasks[i := task][i + 1 := Move(tasks[i + 1], Unblocked, InTransit)];
    assert Current(docs, tasks[i]);
    assert Gated(tasks, i);
    assert Sound(tasks[i + 1]);
    MoveReplays(tasks[i + 1], Unblocked, InTransit);
    forall j | 0 <= j < |updated| ensures Sound(updated[j]) && Current(docs, updated[j]) && Gated(updated, j) {
      assert Sound(tasks[j]) && Current(docs, tasks[j]) && Gated(tasks, j);
    }
  }

  /** A finished task, and with a finished dispatch the receive task it lets through. */
  lemma FinishKeeps(docs: map<int, Docs.Document>, tasks: seq<Task>, i: nat, task: Task)
    requires TasksInOrder(docs, tasks)
    requires i < |tasks| && tasks[i].status == InProgress
    requires Sound(task) && SamePosting(task, tasks[i]) && task.kind == tasks[i].kind
    requires task.status == Completed
    ensures TasksInOrder(docs, ActivateReceive(tasks[i := task], task))
  {
    var updated := tasks[i := task];
    var n := FirstBlocked(updated, task.doc, task.version);
    if task.kind == TransferDispatch && n < |tasks| {
      assert n != i && updated[n] == tasks[n];
      assert Gated(tasks, n);
      BlockedIsNext(tasks, i, n);
      ReleaseKeeps(docs, tasks, i, task);
    } else {
      PlainConfirmKeeps(docs, tasks, i, task);
    }
  }

  lemma ConfirmKeeps(docs: map<int, Docs.Document>, tasks: seq<Task>, i: int, payload: seq<Confirmation>, user: User)
    requires TasksInOrder(docs, tasks)
    ensures Confirm(tasks, i, payload, user).Ok? ==> TasksInOrder(docs, Confirm(tasks, i, payload, user).value)
  {
    if Confirm(tasks, i, payload, user).Ok? {
      var task := ConfirmedTask(tasks[i], payload);
      ConfirmedTaskSound(tasks[i], payload);
      if task.status == Completed {
        FinishKeeps(docs, tasks, i, task);
      } else {
        PlainConfirmKeeps(docs, tasks, i, task);
      }
    }
  }

  lemma WithdrawnTask(docs: map<int, Docs.Document>, after: map<int, Docs.Document>, task: Task, id: int)
    requires Sound(task) && Current(docs, task)
    requires id in docs && id in after
    requires forall d :: d in docs && d != id ==> d in after && after[d] == docs[d]
    requires after[id].status != Docs.Draft && after[id].version >= docs[id].version
    ensures Sound(Withdraw(task, id, docs[id].version)) && Current(after, Withdraw(task, id, docs[id].version))
  {
    if Outdated(task, id, docs[id].version) {
      MoveReplays(task, Withdrawn, Cancelled);
    }
  }

  lemma WithdrawnGate(tasks: seq<Task>, id: int, version: int, j: nat)
    requires j < |tasks| && Gated(tasks, j)
    ensures Gated(CancelActive(tasks, id, version), j)
  {
  }

  /** Withdrawing a posting's open tasks lets its document move on to another version or be cancelled. */
  lemma CancelActiveKeeps(docs: map<int, Docs.Document>, after: map<int, Docs.Document>, tasks: seq<Task>, id: int)
    requires TasksInOrder(docs, tasks)
    requires id in docs && after.Keys == docs.Keys
    requires forall d :: d in docs && d != id ==> after[d] == docs[d]
    requires after[id].status != Docs.Draft && after[id].version >= docs[id].version
    ensures TasksInOrder(after, CancelActive(tasks, id, docs[id].version))
    ensures forall i :: 0 <= i < |tasks| ==>
      !(CancelActive(tasks, id, docs[id].version)[i].doc == id
        && CancelActive(tasks, id, docs[id].version)[i].version > docs[id].version)
  {
    var updated := CancelActive(tasks, id, docs[id].version);
    forall j | 0 <= j < |updated|
      ensures Sound(updated[j]) && Current(after, updated[j]) && Gated(updated, j)
      ensures !(updated[j].doc == id && updated[j].version > docs[id].version)
    {
      assert Sound(tasks[j]) && Current(docs, tasks[j]) && Gated(tasks, j);
      WithdrawnTask(docs, after, tasks[j], id);
      WithdrawnGate(tasks, id, docs[id].version, j);
    }
    WithdrawnDistinct(tasks, id, docs[id].version);
  }

  lemma WithdrawnDistinct(tasks: seq<Task>, id: int, version: int)
    requires Distinct(tasks)
    ensures Distinct(CancelActive(tasks, id, version))
  {
  }

  lemma AddOneTask(docs: map<int, Docs.Document>, tasks: seq<Task>, id: int, spec: Spec)
    requires TasksInOrder(docs, tasks)
    requires id in docs && docs[id].status == Docs.Posted && docs[id].version >= 1
    requires forall i :: 0 <= i < |tasks| && tasks[i].doc == id && tasks[i].version == docs[id].version ==>
      tasks[i].kind != spec.kind
    requires spec.status in {Pending, Blocked}
    requires spec.kind == TransferReceive ==>
      && |tasks| > 0
      && tasks[|tasks| - 1].doc == id && tasks[|tasks| - 1].version == docs[id].version
      && tasks[|tasks| - 1].kind == TransferDispatch && Active(tasks[|tasks| - 1])
      && spec.status == Blocked
    ensures !Exists(tasks, id, docs[id].version, spec.warehouse, spec.kind)
    ensures TasksInOrder(docs, tasks + [NewTask(id, docs[id], spec)])
  {
    var updated := tasks + [NewTask(id, docs[id], spec)];
    assert Sound(NewTask(id, docs[id], spec));
    assert Current(docs, NewTask(id, docs[id], spec));
    forall j | 0 <= j < |updated| ensures Sound(updated[j]) && Current(docs, updated[j]) && Gated(updated, j) {
      if j < |tasks| {
        assert Sound(tasks[j]) && Current(docs, tasks[j]) && Gated(tasks, j);
      }
    }
  }

  lemma AddsOne(tasks: seq<Task>, id: int, doc: Docs.Document, spec: Spec)
    requires !Exists(tasks, id, doc.version, spec.warehouse, spec.kind)
    ensures AddTasks(tasks, id, doc, [spec]) == tasks + [NewTask(id, doc, spec)]
  {
    assert [spec][..0] == [];
    assert AddTasks(tasks, id, doc, [spec][..0]) == tasks;
  }

  lemma AddsTwo(tasks: seq<Task>, id: int, doc: Docs.Document, first: Spec, second: Spec)
    requires !Exists(tasks, id, doc.version, first.warehouse, first.kind)
    requires !Exists(tasks + [NewTask(id, doc, first)], id, doc.version, second.warehouse, second.kind)
    ensures AddTasks(tasks, id, doc, [first, second]) == tasks + [NewTask(id, doc, first)] + [NewTask(id, doc, second)]
  {
    AddsOne(tasks, id, doc, first);
    assert [first, second][..1] == [first];
  }

  /** No task of the posting yet. */
  predicate NoTasksYet(tasks: seq<Task>, id: int, version: int)
  {
    forall i :: 0 <= i < |tasks| && tasks[i].doc == id ==> tasks[i].version != version
  }

  lemma FirstTaskKeeps(docs: map<int, Docs.Document>, tasks: seq<Task>, id: int, spec: Spec)
    requires TasksInOrder(docs, tasks)
    requires id in docs && docs[id].status == Docs.Posted && docs[id].version >= 1
    requires NoTasksYet(tasks, id, docs[id].version)
    requires spec.status == Pending && spec.kind != TransferReceive
    ensures !Exists(tasks, id, docs[id].version, spec.warehouse, spec.kind)
    ensures TasksInOrder(docs, tasks + [NewTask(id, docs[id], spec)])
  {
    AddOneTask(docs, tasks, id, spec);
  }

  lemma TransferTasksKeep(docs: map<int, Docs.Document>, tasks: seq<Task>, id: int, from: int, to: int)
    requires TasksInOrder(docs, tasks)
    requires id in docs && docs[id].status == Docs.Posted && docs[id].version >= 1
    requires NoTasksYet(tasks, id, docs[id].version)
    ensures var first, second := Spec(from, TransferDispatch, Pending), Spec(to, TransferReceive, Blocked);
      && AddTasks(tasks, id, docs[id], [first, second])
         == tasks + [NewTask(id, docs[id], first)] + [NewTask(id, docs[id], second)]
      && TasksInOrder(docs, AddTasks(tasks, id, docs[id], [first, second]))
  {
    var first, second := Spec(from, TransferDispatch, Pending), Spec(to, TransferReceive, Blocked);
    FirstTaskKeeps(docs, tasks, id, first);
    AddOneTask(docs, tasks + [NewTask(id, docs[id], first)], id, second);
    AddsTwo(tasks, id, docs[id], first, second);
  }

  /** The tasks are in order with this many new ones at the end. */
  predicate Added(docs: map<int, Docs.Document>, tasks: seq<Task>, after: seq<Task>, count: nat)
  {
    TasksInOrder(docs, after) && |after| == |tasks| + count && forall i :: 0 <= i < |tasks| ==> after[i] == tasks[i]
  }

  lemma OneAdded(docs: map<int, Docs.Document>, tasks: seq<Task>, id: int, spec: Spec)
    requires TasksInOrder(docs, tasks)
    requires id in docs && docs[id].status == Docs.Posted && docs[id].version >= 1
    requires NoTasksYet(tasks, id, docs[id].version)
    requires spec.status == Pending && spec.kind != TransferReceive
    ensures Added(docs, tasks, AddTasks(tasks, id, docs[id], [spec]), 1)
  {
    FirstTaskKeeps(docs, tasks, id, spec);
    AddsOne(tasks, id, docs[id], spec);
  }

  lemma TwoAdded(docs: map<int, Docs.Document>, tasks: seq<Task>, id: int, from: int, to: int)
    requires TasksInOrder(docs, tasks)
    requires id in docs && docs[id].status == Docs.Posted && docs[id].version >= 1
    requires NoTasksYet(tasks, id, docs[id].version)
    ensures var specs := [Spec(from, TransferDispatch, Pending), Spec(to, TransferReceive, Blocked)];
      Added(docs, tasks, AddTasks(tasks, id, docs[id], specs), 2)
  {
    TransferTasksKeep(docs, tasks, id, from, to);
  }

  lemma SpecsAdded(docs: map<int, Docs.Document>, tasks: seq<Task>, id: int)
    requires TasksInOrder(docs, tasks)
    requires id in docs && docs[id].status == Docs.Posted && docs[id].version >= 1
    requires NoTasksYet(tasks, id, docs[id].version)
    ensures var specs := Specs(docs[id].content);
      Added(docs, tasks, AddTasks(tasks, id, docs[id], specs), |specs|)
  {
    var content := docs[id].content;
    if content.warehouse.Some? {
      match content.docType
      case Incoming => OneAdded(docs, tasks, id, Spec(content.warehouse.value, IncomingReceive, Pending));
      case Outgoing => OneAdded(docs, tasks, id, Spec(content.warehouse.value, OutgoingDispatch, Pending));
      case Adjustment =>
      case Transfer =>
        if content.destination.Some? {
          TwoAdded(docs, tasks, id, content.warehouse.value, content.destination.value);
        }
    }
  }

  /** A new posting gets its tasks, each once, the receiving half blocked behind the dispatch. */
  lemma CreateKeeps(docs: map<int, Docs.Document>, tasks: seq<Task>, id: int)
    requires TasksInOrder(docs, tasks)
    requires id in docs && docs[id].status == Docs.Posted && docs[id].version >= 1
    requires NoTasksYet(tasks, id, docs[id].version)
    ensures TasksInOrder(docs, CreateTasks(tasks, id, docs[id]))
    ensures |CreateTasks(tasks, id, docs[id])| == |tasks| + |Specs(docs[id].content)|
    ensures forall i :: 0 <= i < |tasks| ==> CreateTasks(tasks, id, docs[id])[i] == tasks[i]
  {
    SpecsAdded(docs, tasks, id);
  }

  /** Posting a draft, which has no tasks yet, keeps every other task where it was. */
  lemma PostingKeeps(docs: map<int, Docs.Document>, after: map<int, Docs.Document>, tasks: seq<Task>, id: int)
    requires TasksInOrder(docs, tasks)
    requires forall d :: d in docs && d != id ==> d in after && after[d] == docs[d]
    requires id in docs ==> docs[id].status == Docs.Draft
    ensures TasksInOrder(after, tasks)
    ensures forall i :: 0 <= i < |tasks| ==> tasks[i].doc != id
  {
    forall j | 0 <= j < |tasks| ensures tasks[j].doc != id && Current(after, tasks[j]) {
      assert Current(docs, tasks[j]);
    }
  }

  // ------------------------------------------------------------ every posting has its tasks

  /** No task is lost, and none changes its posting, kind or warehouse. */
  predicate Identified(before: seq<Task>, after: seq<Task>)
  {
    |before| <= |after|
    && forall i :: 0 <= i < |before| ==>
         && SamePosting(before[i], after[i])
         && before[i].kind == after[i].kind && before[i].warehouse == after[i].warehouse
  }

  /** A posting in force has a task for each of its specs. */
  predicate Covered(tasks: seq<Task>, id: int, doc: Docs.Document)
  {
    doc.status == Docs.Posted && doc.version >= 1 ==>
      forall n :: 0 <= n < |Specs(doc.content)| ==>
        Exists(tasks, id, doc.version, Specs(doc.content)[n].warehouse, Specs(doc.content)[n].kind)
  }

  predicate AllCovered(docs: map<int, Docs.Document>, tasks: seq<Task>)
  {
    forall d :: d in docs ==> Covered(tasks, d, docs[d])
  }

  lemma ExistsStays(before: seq<Task>, after: seq<Task>, id: int, version: int, warehouse: int, kind: TaskKind)
    requires Identified(before, after) && Exists(before, id, version, warehouse, kind)
    ensures Exists(after, id, version, warehouse, kind)
  {
    var i :| 0 <= i < |before| && before[i].doc == id && before[i].version == version
      && before[i].warehouse == warehouse && before[i].kind == kind;
    assert SamePosting(before[i], after[i]);
  }

  lemma CoverStays(docs: map<int, Docs.Document>, before: seq<Task>, after: seq<Task>)
    requires Identified(before, after) && AllCovered(docs, before)
    ensures AllCovered(docs, after)
  {
    forall d | d in docs ensures Covered(after, d, docs[d]) {
      assert Covered(before, d, docs[d]);
      var doc := docs[d];
      if doc.status == Docs.Posted && doc.version >= 1 {
        forall n | 0 <= n < |Specs(doc.content)|
          ensures Exists(after, d, doc.version, Specs(doc.content)[n].warehouse, Specs(doc.content)[n].kind)
        {
          ExistsStays(before, after, d, doc.version, Specs(doc.content)[n].warehouse, Specs(doc.content)[n].kind);
        }
      }
    }
  }

  lemma {:induction false} AddTasksCover(tasks: seq<Task>, id: int, doc: Docs.Document, specs: seq<Spec>)
    ensures Identified(tasks, AddTasks(tasks, id, doc, specs))
    ensures forall n :: 0 <= n < |specs| ==>
      Exists(AddTasks(tasks, id, doc, specs), id, doc.version, specs[n].warehouse, specs[n].kind)
  {
    if |specs| > 0 {
      var m := |specs| - 1;
      var before, after := AddTasks(tasks, id, doc, specs[..m]), AddTasks(tasks, id, doc, specs);
      AddTasksCover(tasks, id, doc, specs[..m]);
      forall n | 0 <= n < |specs| ensures Exists(after, id, doc.version, specs[n].warehouse, specs[n].kind) {
        if n < m {
          assert specs[..m][n] == specs[n];
          ExistsStays(before, after, id, doc.version, specs[n].warehouse, specs[n].kind);
        } else if !Exists(before, id, doc.version, specs[m].warehouse, specs[m].kind) {
          assert after[|before|] == NewTask(id, doc, specs[m]);
        }
      }
    }
  }

  /** Generating tasks covers the posting and disturbs no other. */
  lemma CreateCovers(docs: map<int, Docs.Document>, tasks: seq<Task>, id: int, doc: Docs.Document)
    requires AllCovered(docs, tasks)
    ensures AllCovered(docs[id := doc], CreateTasks(tasks, id, doc))
  {
    AddTasksCover(tasks, id, doc, Specs(doc.content));
    CoverStays(docs, tasks, CreateTasks(tasks, id, doc));
  }

  lemma WithdrawnIdentified(tasks: seq<Task>, id: int, version: int)
    ensures Identified(tasks, CancelActive(tasks, id, version))
  {
  }

  lemma StepsIdentify(tasks: seq<Task>, i: int, payload: seq<Confirmation>, user: User)
    ensures Start(tasks, i, user).Ok? ==> Identified(tasks, Start(tasks, i, user).value)
    ensures Return(tasks, i, user).Ok? ==> Identified(tasks, Return(tasks, i, user).value)
    ensures Confirm(tasks, i, payload, user).Ok? ==> Identified(tasks, Confirm(tasks, i, payload, user).value)
  {
    if Confirm(tasks, i, payload, user).Ok? {
      var task := ConfirmedTask(tasks[i], payload);
      ReleaseIdentifies(tasks[i := task], task);
    }
  }

  lemma ReleaseIdentifies(tasks: seq<Task>, task: Task)
    ensures Identified(tasks, ActivateReceive(tasks, task))
  {
  }
}
