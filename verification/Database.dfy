/** The database the services change in place, and what an answer of a service promises about it. */
module Database {
  import opened Common
  import opened Books
  import S = Stock
  import D = Documents
  import L = Logistics
  import P = Payments
  import C = Cash

  class Db {
    var dir: D.Directory
    var docs: map<int, D.Document>
    var balances: map<S.Key, int>
    var log: seq<S.Movement>
    var revisions: map<Posting, Revision>
    var tasks: seq<L.Task>
    var payments: P.PayTable
    const cash: C.CashTable

    constructor (dir: D.Directory)
      ensures Contents() == Empty(dir) && fresh(cash)
    {
      this.dir := dir;
      docs, balances, log := map[], map[], [];
      revisions, tasks, payments := map[], [], map[];
      cash := new C.CashTable();
    }

    /** Everything in the database, as one value. */
    function Contents(): Books
      reads this, cash
    {
      Books(dir, D.Store(docs, balances, log), revisions, tasks, payments, cash.ops)
    }
  }

  /** A service answers as the step says; refused, it leaves the database as it found it. */
  ghost predicate Answers<T>(step: Result<Books>, answer: Result<T>, before: Books, after: Books)
  {
    if step.Ok? then answer.Ok? && after == step.value
    else answer.Err? && answer.fault == step.fault && after == before
  }
}
