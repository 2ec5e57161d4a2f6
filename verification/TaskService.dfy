/** Warehouse tasks on the database in place. */
module TaskService {
  import opened Common
  import B = Books
  import opened Database
  import opened L = Logistics
  import D = Documents

  /** One line per document line. */
  method TaskLines(doc: D.Document) returns (lines: seq<TaskLine>)
    ensures lines == ExpectedLines(doc.content.lines)
  {
    lines := [];
    var i := 0;
    while i < |doc.content.lines|
      invariant 0 <= i <= |doc.content.lines|
      invariant lines == ExpectedLines(doc.content.lines)[..i]
    {
      var line := doc.content.lines[i];
      lines := lines + [TaskLine(line.product, line.quantity, None, Unconfirmed)];
      i := i + 1;
    }
  }

  method CreateTasksForDocument(db: Db, id: int)
    requires id in db.docs
    modifies db`tasks
    ensures db.tasks == CreateTasks(old(db.tasks), id, db.docs[id])
  {
    var doc := db.docs[id];
    if doc.status != D.Posted || doc.version <= 0 {
      return;
    }
    var specs := Specs(doc.content);
    var i := 0;
    while i < |specs|
      invariant 0 <= i <= |specs|
      invariant db.tasks == AddTasks(old(db.tasks), id, doc, specs[..i])
    {
      assert specs[..i + 1][..i] == specs[..i];
      var spec := specs[i];
      if !Exists(db.tasks, id, doc.version, spec.warehouse, spec.kind) {
        var lines := TaskLines(doc);
        var task := Task(id, doc.version, spec.warehouse, spec.kind, spec.status, None, lines,
                         [Event(Generated, None, spec.status)]);
        db.tasks := db.tasks + [task];
      }
      i := i + 1;
    }
    assert specs[..i] == specs;
  }

  method CancelActiveTasksForDocumentVersion(db: Db, id: int, version: int)
    modifies db`tasks
    ensures db.tasks == CancelActive(old(db.tasks), id, version)
  {
    var i := 0;
    while i < |db.tasks|
      invariant 0 <= i <= |db.tasks| == |old(db.tasks)|
      invariant forall j :: 0 <= j < i ==> db.tasks[j] == Withdraw(old(db.tasks)[j], id, version)
      invariant forall j :: i <= j < |db.tasks| ==> db.tasks[j] == old(db.tasks)[j]
    {
      var task := db.tasks[i];
      if Outdated(task, id, version) {
        db.tasks := db.tasks[i := Move(task, Withdrawn, Cancelled)];
      }
      i := i + 1;
    }
  }

  method StartTask(db: Db, i: int, user: User) returns (r: Result<()>)
    modifies db`tasks
    ensures Answers(B.StartTask(old(db.Contents()), i, user), r, old(db.Contents()), db.Contents())
  {
    if !(0 <= i < |db.tasks|) || !Visible(db.tasks[i], user) {
      return Err(NotFound);
    }
    var task := db.tasks[i];
    if task.status != Pending && task.status != InTransit {
      return Err(Conflict);
    }
    db.tasks := db.tasks[i := Move(task, Started, InProgress).(assignee := Some(user.id))];
    return Ok(());
  }

  /** No line twice, none missing, none unknown, every deviation commented. */
  method ValidateConfirmation(task: Task, payload: seq<Confirmation>) returns (complete: bool)
    ensures complete <==> Complete(task, payload)
  {
    var submitted: set<int> := {};
    var j := 0;
    while j < |payload|
      invariant 0 <= j <= |payload|
      invariant forall n :: n in submitted <==> exists k :: 0 <= k < j && payload[k].line == n
      invariant forall k, m :: 0 <= k < m < j ==> payload[k].line != payload[m].line
    {
      if payload[j].line in submitted {
        return false;
      }
      submitted := submitted + {payload[j].line};
      j := j + 1;
    }
    if !NamesEveryLine(task, submitted) {
      OddLines(task, payload, submitted);
      return false;
    }
    j := 0;
    while j < |payload|
      invariant 0 <= j <= |payload|
      invariant forall k :: 0 <= k < j ==>
        0 <= payload[k].line < |task.lines|
        && (payload[k].actual == task.lines[payload[k].line].expected || payload[k].commented)
    {
      assert payload[j].line in submitted;
      if payload[j].actual != task.lines[payload[j].line].expected && !payload[j].commented {
        return false;
      }
      j := j + 1;
    }
    forall n | 0 <= n < |task.lines| ensures Mentions(payload, n) {
      assert n in submitted;
    }
    return true;
  }

  predicate NamesEveryLine(task: Task, submitted: set<int>)
  {
    (forall n :: n in submitted ==> 0 <= n < |task.lines|) && forall n :: 0 <= n < |task.lines| ==> n in submitted
  }

  lemma OddLines(task: Task, payload: seq<Confirmation>, submitted: set<int>)
    requires forall n :: n in submitted <==> exists k :: 0 <= k < |payload| && payload[k].line == n
    ensures Complete(task, payload) ==> NamesEveryLine(task, submitted)
  {
    if Complete(task, payload) {
      forall n | 0 <= n < |task.lines| ensures n in submitted {
        assert Mentions(payload, n);
      }
    }
  }

  /** Record what was reported for each line. */
  method ReportLines(task: Task, payload: seq<Confirmation>) returns (lines: seq<TaskLine>, discrepancy: bool)
    ensures lines == ConfirmLines(task.lines, payload)
    ensures discrepancy <==> !Matches(task.lines, payload)
  {
    lines, discrepancy := [], false;
    var n := 0;
    while n < |task.lines|
      invariant 0 <= n <= |task.lines|
      invariant lines == ConfirmLines(task.lines, payload)[..n]
      invariant discrepancy <==> exists k :: 0 <= k < n && ReportedQuantity(payload, k) != task.lines[k].expected
    {
      var actual := ReportedQuantity(payload, n);
      lines := lines + [ConfirmLine(task.lines[n], actual)];
      if actual != task.lines[n].expected {
        discrepancy := true;
      }
      n := n + 1;
    }
  }

  /** At most one task was let through: a receive task of this posting that was blocked. */
  predicate LetThrough(before: seq<Task>, after: seq<Task>, task: Task)
  {
    && |after| == |before|
    && (forall j :: 0 <= j < |after| && after[j] != before[j] ==>
          task.kind == TransferDispatch && BlockedReceive(before[j], task.doc, task.version)
          && after[j] == Move(before[j], Unblocked, InTransit))
    && (forall i, j :: 0 <= i < j < |after| && after[i] != before[i] ==> after[j] == before[j])
  }

  /** A finished dispatch lets its receive task through, and as no posting has two, none stays blocked. */
  method ActivateTransferReceive(db: Db, task: Task)
    modifies db`tasks
    ensures LetThrough(old(db.tasks), db.tasks, task)
    ensures task.kind == TransferDispatch && Distinct(old(db.tasks)) ==>
      forall j :: 0 <= j < |db.tasks| ==> !BlockedReceive(db.tasks[j], task.doc, task.version)
    ensures db.tasks == ActivateReceive(old(db.tasks), task)
  {
    if task.kind != TransferDispatch {
      return;
    }
    var n := FirstBlocked(db.tasks, task.doc, task.version);
    if n == |db.tasks| {
      return;
    }
    db.tasks := db.tasks[n := Move(db.tasks[n], Unblocked, InTransit)];
  }

  method ConfirmTask(db: Db, i: int, payload: seq<Confirmation>, user: User) returns (r: Result<()>)
    modifies db`tasks
    ensures Answers(B.ConfirmTask(old(db.Contents()), i, payload, user), r, old(db.Contents()), db.Contents())
  {
    if !(0 <= i < |db.tasks|) || !Visible(db.tasks[i], user) {
      return Err(NotFound);
    }
    var task := db.tasks[i];
    if task.status != InProgress {
      return Err(Conflict);
    }
    if task.assignee != Some(user.id) && !user.reviewer {
      return Err(Conflict);
    }
    var complete := ValidateConfirmation(task, payload);
    if !complete {
      return Err(Unprocessable);
    }
    var lines, discrepancy := ReportLines(task, payload);
    var moved := if discrepancy then Move(task, Reported, NeedsReview) else Move(task, Finished, Completed);
    db.tasks := db.tasks[i := moved.(lines := lines)];
    if !discrepancy {
      ActivateTransferReceive(db, db.tasks[i]);
    }
    return Ok(());
  }

  method ReturnTask(db: Db, i: int, user: User) returns (r: Result<()>)
    modifies db`tasks
    ensures Answers(B.ReturnTask(old(db.Contents()), i, user), r, old(db.Contents()), db.Contents())
  {
    if !(0 <= i < |db.tasks|) || !Visible(db.tasks[i], user) {
      return Err(NotFound);
    }
    if !user.reviewer {
      return Err(Forbidden);
    }
    var task := db.tasks[i];
    if task.status != NeedsReview {
      return Err(Conflict);
    }
    var lines := ResetLines(task.lines);
    db.tasks := db.tasks[i := Move(task, Returned, Pending).(assignee := None, lines := lines)];
    return Ok(());
  }

  method ResetLines(before: seq<TaskLine>) returns (lines: seq<TaskLine>)
    ensures lines == Reset(before)
  {
    lines := [];
    var n := 0;
    while n < |before|
      invariant 0 <= n <= |before|
      invariant lines == Reset(before)[..n]
    {
      lines := lines + [before[n].(status := Unconfirmed)];
      n := n + 1;
    }
  }
}
